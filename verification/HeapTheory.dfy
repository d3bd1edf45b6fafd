/** Facts the allocator's code relies on when it reads tags and lists. */
module HeapTheory {
  import opened MallocSizes
  import opened Alignment
  import opened ChunkMemory
  import opened Chunks
  import opened HeapState
  import opened HeapLists
  import opened HeapSteps
  import opened HeapMerge
  import opened HeapGrow
  import opened HeapResize
  import opened HeapMaps
  import opened BinMap
  import opened HeapSum

  /** Every chunk outside xs is in a bin or in the program's hands. */
  ghost predicate StableBut(h: Heap, xs: set<int>) {
    forall p {:trigger Settled(h, p)} :: p in h.c && p !in xs ==> Settled(h, p)
  }

  /** inuse_bit_at_offset(n, chunksize(n)) tells whether n is in use, even for
      the first fencepost, whose recorded size is one word. */
  lemma InuseBit(m: Mem, h: Heap, n: int)
    requires Inv(h) && HeadsOk(m, h.c) && n in h.c && !h.c[n].kind.Top?
    ensures PrevInuse(m, n + ChunkSize(m, n)) <==> !h.c[n].kind.Free?
  {
    TagsRead(m, h.c, n);
    if h.c[n].kind.Fence? {
      assert HeadOk(m, n, h.c[n]);
    } else {
      assert Sound(h.c, n);
      TagsRead(m, h.c, Next(h.c, n));
    }
  }

  /** A free chunk with a bin number is found in that bin. */
  lemma BinPosition(h: Heap, p: int) returns (k: nat)
    requires Inv(h) && p in h.c && h.c[p].kind.Free? && h.c[p].kind.bin > 0
    ensures 1 <= h.c[p].kind.bin < NBINS && k < |h.bins[h.c[p].kind.bin]| && h.bins[h.c[p].kind.bin][k] == p
  {
    assert Binned(h.c, h.bins, p);
    k :| 0 <= k < |h.bins[h.c[p].kind.bin]| && h.bins[h.c[p].kind.bin][k] == p;
  }

  lemma RetagStable(h: Heap, h': Heap, p: int, k: Kind, xs: set<int>)
    requires p in h.c && h'.c == Retag(h.c, p, k) && h'.live == h.live && StableBut(h, xs)
    ensures StableBut(h', xs + {p})
    ensures (k.Free? && k.bin > 0) || k.Fast? ==> StableBut(h', xs - {p})
  {
    forall q | q in h'.c && q !in xs && q != p ensures Settled(h', q) { assert Settled(h, q); }
    if (k.Free? && k.bin > 0) || k.Fast? {
      forall q | q in h'.c && q !in xs - {p} ensures Settled(h', q) {
        if q != p { assert Settled(h, q); }
      }
    }
  }

  /** Outside the released span every chunk stays as settled as it was. */
  lemma ReleaseStable(h: Heap, c': Arena, p: int)
    requires Inv(h) && p in h.c && Next(h.c, p) in h.c && Released(h.c, c', p)
    requires Start(h.c, p) <= p < Next(h.c, p) <= Stop(h.c, p)
    requires StableBut(h, {p, Start(h.c, p)} + (if h.c[Next(h.c, p)].kind.Free? then {Next(h.c, p)} else {}))
    ensures StableBut(h.(c := c'), {Start(h.c, p)})
  {
    var h', s, e := h.(c := c'), Start(h.c, p), Stop(h.c, p);
    assert Sound(h.c, Next(h.c, p));
    forall q | q in c' && q != s ensures Settled(h', q) {
      assert q < s || e <= q;
      assert Settled(h, q);
    }
  }

  ghost predicate IsWall(k: Kind) { k.Dead? || k.Fence? }

  ghost function KindAt(c: Arena, k: Kind): set<int> { set p | p in c && c[p].kind == k }

  /** The chunks no operation ever touches, dead bytes and fenceposts, are the same. */
  ghost predicate WallsKept(c: Arena, c': Arena) {
    KindAt(c', Dead) == KindAt(c, Dead) && KindAt(c', Fence) == KindAt(c, Fence)
  }

  /** Top, once it exists, is never made smaller, and the walls stay. */
  ghost predicate EndsKept(h: Heap, h': Heap) {
    && (h.top in h.c ==> h'.top in h'.c && h.c[h.top].size <= h'.c[h'.top].size)
    && WallsKept(h.c, h'.c)
  }

  lemma RetagEnds(h: Heap, h': Heap, p: int, k: Kind)
    requires Inv(h) && p in h.c && h'.c == Retag(h.c, p, k) && h'.top == h.top
    requires !IsWall(h.c[p].kind) && !IsWall(k)
    ensures EndsKept(h, h')
  {
    assert KindAt(h'.c, Dead) == KindAt(h.c, Dead) && KindAt(h'.c, Fence) == KindAt(h.c, Fence);
  }

  /** A change confined to [s, e] that neither removes nor adds a wall. */
  lemma SameWalls(c: Arena, c': Arena, s: int, e: int)
    requires forall x {:trigger x in c'} {:trigger x in c} :: x < s || e < x ==>
      (x in c' <==> x in c) && (x in c' ==> c'[x] == c[x])
    requires forall x :: s <= x <= e && x in c && IsWall(c[x].kind) ==> x in c' && c'[x].kind == c[x].kind
    requires forall x :: s <= x <= e && x in c' && IsWall(c'[x].kind) ==> x in c && c[x].kind == c'[x].kind
    ensures WallsKept(c, c')
  {
    forall x ensures x in KindAt(c', Dead) <==> x in KindAt(c, Dead) { assert x < s || e < x || s <= x <= e; }
    forall x ensures x in KindAt(c', Fence) <==> x in KindAt(c, Fence) { assert x < s || e < x || s <= x <= e; }
  }

  lemma ReleaseKeepsTop(h: Heap, c': Arena, p: int)
    requires Inv(h) && Releasable(h, p) && !h.c[Next(h.c, p)].kind.Top? && Released(h.c, c', p)
    requires Start(h.c, p) in h.c && Start(h.c, p) <= p < Next(h.c, p) <= Stop(h.c, p)
    ensures h.top in h.c ==> h.top in c' && c'[h.top].size == h.c[h.top].size
  {
    var s, n, e := Start(h.c, p), Next(h.c, p), Stop(h.c, p);
    assert OnlyTop(h, n);
    if h.top in h.c {
      MergedStop(h, p);
      assert Apart(h.c, n, h.top);
      if s <= h.top < n { SpanIsLoose(h, p, h.top); }
    }
  }

  lemma ReleaseKeepsWalls(h: Heap, c': Arena, p: int)
    requires Inv(h) && Releasable(h, p) && !h.c[Next(h.c, p)].kind.Top? && Released(h.c, c', p)
    requires Start(h.c, p) in h.c && Start(h.c, p) <= p < Next(h.c, p) <= Stop(h.c, p)
    ensures WallsKept(h.c, c')
  {
    var s, n, e := Start(h.c, p), Next(h.c, p), Stop(h.c, p);
    forall x | s <= x <= e && x in h.c && IsWall(h.c[x].kind) ensures x in c' && c'[x].kind == h.c[x].kind {
      if x < e { LoosePart(h, p, x); }
    }
    SameWalls(h.c, c', s, e);
  }

  /** No wall lies in the span that is merged. */
  lemma LoosePart(h: Heap, p: int, x: int)
    requires Inv(h) && Releasable(h, p) && !h.c[Next(h.c, p)].kind.Top? && x in h.c && Start(h.c, p) <= x < Stop(h.c, p)
    ensures !IsWall(h.c[x].kind)
  {
    var s, n := Start(h.c, p), Next(h.c, p);
    assert Sound(h.c, p) && Apart(h.c, p, x) && Apart(h.c, n, x);
    if h.c[p].psize != 0 { assert Apart(h.c, s, x); }
  }

  lemma ReleaseTopEnds(h: Heap, c': Arena, p: int)
    requires Inv(h) && BordersTop(h, p) && ToppedUp(h.c, c', p) && h.top == Next(h.c, p)
    ensures EndsKept(h, h.(c := c', top := Start(h.c, p)))
  {
    var s, n := Start(h.c, p), Next(h.c, p);
    var e := Next(h.c, n);
    assert Sound(h.c, p) && Sound(h.c, n) && Contained(h.regions, n, h.c[n]);
    forall x | s <= x <= e && x in h.c && IsWall(h.c[x].kind) ensures x in c' && c'[x].kind == h.c[x].kind {
      assert Apart(h.c, p, x) && Apart(h.c, n, x);
      if h.c[p].psize != 0 { assert Apart(h.c, s, x); }
    }
    SameWalls(h.c, c', s, e);
  }

  /** Everything about releasing a chunk away from top. */
  lemma ReleaseAll(m: Mem, h: Heap, heads: seq<int>, p: int)
    requires Inv(h) && Rep(m, h, heads) && Releasable(h, p) && !h.c[Next(h.c, p)].kind.Top?
    requires StableBut(h, {p, Start(h.c, p)} + (if h.c[Next(h.c, p)].kind.Free? then {Next(h.c, p)} else {}))
    ensures Start(h.c, p) in h.c && Stop(h.c, p) in h.c
    ensures Start(h.c, p) in Merged(h.c, p) && Next(Merged(h.c, p), Start(h.c, p)) in Merged(h.c, p)
    ensures var s, e, h' := Start(h.c, p), Stop(h.c, p), ReleaseStep(h, p);
      var m' := ReleaseWrites(m, Next(h.c, p), s, e - s);
      && Inv(h') && Rep(m', h', heads) && UserSame(h.live, m, m') && StableBut(h', {s})
      && s in h'.c && h'.c[s].kind == Free(0)
      && Total(h'.c) == Total(h.c) && FreeTotal(h'.c) == FreeTotal(h.c) + h.c[p].size && EndsKept(h, h')
  {
    ReleaseShape(h, p);
    ReleaseKeepsTop(h, ReleaseStep(h, p).c, p);
    ReleaseKeepsWalls(h, ReleaseStep(h, p).c, p);
    ReleaseInv(h, p);
    ReleaseRep(m, h, heads, p);
    ReleaseStable(h, ReleaseStep(h, p).c, p);
    ReleaseSums(h, p, ReleaseStep(h, p).c);
  }

  lemma ReleaseTopStable(h: Heap, c': Arena, p: int)
    requires p in h.c && Next(h.c, p) in h.c && ToppedUp(h.c, c', p)
    requires forall q {:trigger Settled(h, q)} :: q in h.c && (q < Start(h.c, p) || Next(h.c, Next(h.c, p)) <= q) ==>
      Settled(h, q)
    ensures StableBut(h.(c := c', top := Start(h.c, p)), {})
  {
    var h', s, e := h.(c := c', top := Start(h.c, p)), Start(h.c, p), Next(h.c, Next(h.c, p));
    forall q | q in c' ensures Settled(h', q) {
      if q != s {
        assert q < s || e <= q;
        assert Settled(h, q);
      }
    }
  }

  /** The first chunk of a bin, or its header if it is empty; and the last. */
  lemma BinEnds(m: Mem, h: Heap, heads: seq<int>, i: nat)
    requires Inv(h) && Rep(m, h, heads) && 1 <= i < NBINS
    ensures Fd(m, BinAt(i)) == At(BinAt(i), h.bins[i], 0)
    ensures Bk(m, BinAt(i)) == At(BinAt(i), h.bins[i], |h.bins[i]| - 1)
    ensures Bk(m, BinAt(i)) == BinAt(i) <==> h.bins[i] == []
  {
    assert ListRep(m, BinAt(i), h.bins[i]);
    assert Link(m, BinAt(i), h.bins[i], -1) && Link(m, BinAt(i), h.bins[i], |h.bins[i]| - 1);
    BinNodesOk(h, i);
  }

  /** The head of a fastbin is zero exactly when it is empty. */
  lemma FastHead(m: Mem, h: Heap, heads: seq<int>, i: nat)
    requires Inv(h) && Rep(m, h, heads) && i < NFASTBINS
    ensures i < |heads| && (heads[i] == 0 <==> h.fast[i] == [])
    ensures h.fast[i] != [] ==> heads[i] == h.fast[i][0] && FastMember(h.c, heads[i], i) && heads[i] !in h.live
  {
    assert FastRep(m, heads[i], h.fast[i]);
    if h.fast[i] != [] {
      InFast(h, i, 0);
      assert Sound(h.c, h.fast[i][0]);
    }
  }

  /** No chunk is small enough for the fastbins above max_fast. */
  lemma HighFastbinsEmpty(h: Heap, i: nat)
    requires Inv(h) && 8 <= i < NFASTBINS
    ensures h.fast[i] == []
  {
    if h.fast[i] != [] { FastSize(h, i, 0); }
  }

  lemma FastSize(h: Heap, i: nat, k: nat)
    requires Inv(h) && i < NFASTBINS && k < |h.fast[i]|
    ensures 8 * (i + 2) <= MAX_FAST
  {
    InFast(h, i, k);
    assert Sound(h.c, h.fast[i][k]);
  }

  /** Everything about taking the first chunk off a fastbin. */
  lemma FastPopAll(m: Mem, h: Heap, heads: seq<int>, i: nat, xs: set<int>)
    requires Inv(h) && Rep(m, h, heads) && i < NFASTBINS && h.fast[i] != [] && StableBut(h, xs)
    ensures h.fast[i][0] in h.c && heads[i] == h.fast[i][0]
    ensures var p, h' := heads[i], FastPop(h, i);
      && Inv(h') && Rep(m, h', heads[i := Fd(m, p)]) && StableBut(h', xs + {p})
      && p in h'.c && h'.c[p].kind.Used? && h'.c[p].size == h.c[p].size == 8 * (i + 2) && p !in h'.live
      && Total(h'.c) == Total(h.c) && FreeTotal(h'.c) == FreeTotal(h.c) - h.c[p].size && EndsKept(h, h')
  {
    FastHead(m, h, heads, i);
    FastPopInv(h, i);
    RetagEnds(h, FastPop(h, i), heads[i], Used);
    FastPopRepr(m, h, heads, i);
    RetagStable(h, FastPop(h, i), heads[i], Used, xs);
    RetagSums(h.c, heads[i], Used);
  }

  /** Everything about queueing a small used chunk in its fastbin. */
  lemma FastPushAll(m: Mem, h: Heap, heads: seq<int>, p: int)
    requires Inv(h) && Rep(m, h, heads) && StableBut(h, {p})
    requires p in h.c && h.c[p].kind.Used? && p !in h.live && h.c[p].size <= MAX_FAST
    ensures 0 <= FastbinIndex(h.c[p].size) < |heads| && |h.fast| == |heads|
    ensures var i, h' := FastbinIndex(h.c[p].size), FastPush(h, p); var m' := m[p + 8 := heads[i]];
      && Inv(h') && Rep(m', h', heads[i := p]) && UserSame(h.live, m, m') && StableBut(h', {})
      && Total(h'.c) == Total(h.c) && FreeTotal(h'.c) == FreeTotal(h.c) + h.c[p].size && EndsKept(h, h')
  {
    FastPushInv(h, p);
    RetagEnds(h, FastPush(h, p), p, Fast);
    FastPushRepr(m, h, heads, p);
    RetagStable(h, FastPush(h, p), p, Fast, {p});
    RetagSums(h.c, p, Fast);
  }

  // ----- the shape of the arena, up to which bin a free chunk is in -----

  ghost predicate SameChunk(x: Chunk, y: Chunk) {
    && x.size == y.size && x.psize == y.psize && x.reg == y.reg
    && (if x.kind.Free? then y.kind.Free? else y.kind == x.kind)
  }

  /** Only bin numbers of free chunks differ. */
  ghost predicate SameShape(c: Arena, c': Arena) {
    && c.Keys == c'.Keys
    && forall p {:trigger SameChunk(c[p], c'[p])} :: p in c ==> SameChunk(c[p], c'[p])
  }

  lemma SameShapeRetag(c0: Arena, c: Arena, p: int, k: Kind)
    requires SameShape(c0, c) && p in c && c[p].kind.Free? && k.Free?
    ensures SameShape(c0, Retag(c, p, k))
  {
    var c' := Retag(c, p, k);
    assert c'.Keys == c.Keys;
    forall q | q in c0 ensures SameChunk(c0[q], c'[q]) { assert SameChunk(c0[q], c[q]); }
  }

  lemma SameShapeMoved(c0: Arena, c: Arena, p: int, c1: Arena, b: nat)
    requires SameShape(c0, c) && p in c && c[p].kind.Free? && c1 == Retag(c, p, Free(0))
    ensures SameShape(c0, Retag(c1, p, Free(b)))
  {
    SameShapeRetag(c0, c, p, Free(0));
    SameShapeRetag(c0, c1, p, Free(b));
  }

  lemma SameShapeRefl(c: Arena)
    ensures SameShape(c, c)
  {
  }

  /** The bitmap covers the bins, seen through memory or through the abstract heap. */
  lemma CoversMemory(m: Mem, h: Heap, heads: seq<int>, i: nat)
    requires Inv(h) && Rep(m, h, heads) && 2 <= i < NBINS
    ensures EmptyBin(m, i) <==> h.bins[i] == []
  {
    BinEnds(m, h, heads, i);
  }

  // ----- best fit -----

  /** p is the smallest free chunk that holds nb bytes. */
  ghost predicate BestFit(c: Arena, p: int, nb: int) {
    && p in c && c[p].kind.Free? && nb <= c[p].size
    && forall q :: q in c && c[q].kind.Free? && nb <= c[q].size ==> c[p].size <= c[q].size
  }

  ghost predicate NoneFits(c: Arena, nb: int) {
    forall q :: q in c && c[q].kind.Free? ==> c[q].size < nb
  }

  lemma InOwnBin(h: Heap, q: int) returns (k: nat)
    requires Inv(h) && StableBut(h, {}) && |h.bins| == NBINS && h.bins[1] == [] && q in h.c && h.c[q].kind.Free?
    ensures MINSIZE <= h.c[q].size && 2 <= BinIndex(h.c[q].size) < NBINS
    ensures k < |h.bins[BinIndex(h.c[q].size)]| && h.bins[BinIndex(h.c[q].size)][k] == q
  {
    assert Settled(h, q) && Sound(h.c, q);
    k := BinPosition(h, q);
    InBin(h, h.c[q].kind.bin, k);
    BinIndexRange(h.c[q].size);
  }

  /** Taking the last (smallest) chunk of the first non-empty bin above the
      request's own bin, which is too small throughout, is best fit. */
  lemma LastIsBest(h: Heap, nb: int, idx: nat, i: nat)
    requires Inv(h) && StableBut(h, {}) && h.bins[1] == [] && 16 <= nb && idx == BinIndex(nb) < i < NBINS
    requires h.bins[i] != [] && forall k :: idx < k < i ==> h.bins[k] == []
    requires forall q :: q in h.bins[idx] && q in h.c ==> h.c[q].size < nb
    ensures BestFit(h.c, h.bins[i][|h.bins[i]| - 1], nb)
  {
    var s := h.bins[i];
    var p := s[|s| - 1];
    InBin(h, i, |s| - 1);
    assert Sound(h.c, p);
    if h.c[p].size < nb { BinIndexMonotone(h.c[p].size, nb); }
    forall q | q in h.c && h.c[q].kind.Free? && nb <= h.c[q].size ensures h.c[p].size <= h.c[q].size {
      LastNoBigger(h, nb, idx, i, q);
    }
  }

  lemma LastNoBigger(h: Heap, nb: int, idx: nat, i: nat, q: int)
    requires Inv(h) && StableBut(h, {}) && h.bins[1] == [] && 16 <= nb && idx == BinIndex(nb) < i < NBINS
    requires h.bins[i] != [] && forall k :: idx < k < i ==> h.bins[k] == []
    requires forall q :: q in h.bins[idx] && q in h.c ==> h.c[q].size < nb
    requires q in h.c && h.c[q].kind.Free? && nb <= h.c[q].size
    ensures h.bins[i][|h.bins[i]| - 1] in h.c && h.c[h.bins[i][|h.bins[i]| - 1]].size <= h.c[q].size
  {
    var s := h.bins[i];
    var p := s[|s| - 1];
    InBin(h, i, |s| - 1);
    assert Sound(h.c, p);
    var k := InOwnBin(h, q);
    var b := BinIndex(h.c[q].size);
    BinIndexMonotone(nb, h.c[q].size);
    assert b != idx && i <= b;
    if b == i {
      assert SortedBin(h.c, s) by { assert BinSound(h.c, s, i); }
    } else if h.c[q].size < h.c[p].size {
      BinIndexMonotone(h.c[q].size, h.c[p].size);
    }
  }

  lemma NoBinFits(h: Heap, nb: int, idx: nat)
    requires Inv(h) && StableBut(h, {}) && h.bins[1] == [] && 16 <= nb && idx == BinIndex(nb) < NBINS
    requires forall k :: idx < k < NBINS ==> h.bins[k] == []
    requires forall q :: q in h.bins[idx] && q in h.c ==> h.c[q].size < nb
    ensures NoneFits(h.c, nb)
  {
    forall q | q in h.c && h.c[q].kind.Free? ensures h.c[q].size < nb {
      var k := InOwnBin(h, q);
      if nb <= h.c[q].size { BinIndexMonotone(nb, h.c[q].size); }
    }
  }

  /** Scanning a sorted bin from its small end, the first chunk that fits is best. */
  lemma FirstFitIsBest(h: Heap, nb: int, idx: nat, k: nat)
    requires Inv(h) && StableBut(h, {}) && h.bins[1] == [] && 16 <= nb && idx == BinIndex(nb) && 2 <= idx < NBINS &&
      k < |h.bins[idx]|
    requires h.bins[idx][k] in h.c && nb <= h.c[h.bins[idx][k]].size
    requires forall j :: k < j < |h.bins[idx]| && h.bins[idx][j] in h.c ==> h.c[h.bins[idx][j]].size < nb
    ensures BestFit(h.c, h.bins[idx][k], nb)
  {
    var s := h.bins[idx];
    var p := s[k];
    InBin(h, idx, k);
    assert BinSound(h.c, s, idx);
    forall q | q in h.c && h.c[q].kind.Free? && nb <= h.c[q].size ensures h.c[p].size <= h.c[q].size {
      var j := InOwnBin(h, q);
      BinIndexMonotone(nb, h.c[q].size);
      if BinIndex(h.c[q].size) != idx && h.c[q].size < h.c[p].size { BinIndexMonotone(h.c[q].size, h.c[p].size); }
    }
  }

  // ----- bundles for malloc -----

  lemma TakeStable(h: Heap, p: int, xs: set<int>)
    requires p in h.c && Next(h.c, p) in h.c && StableBut(h, xs)
    ensures StableBut(TakeStep(h, p), xs + {p})
  {
    var h' := TakeStep(h, p);
    forall q | q in h'.c && q !in xs && q != p ensures Settled(h', q) { assert Settled(h, q); }
  }

  /** Everything about handing out a detached free chunk whole. */
  lemma TakeAll(m: Mem, h: Heap, heads: seq<int>, p: int)
    requires Inv(h) && Rep(m, h, heads) && p in h.c && h.c[p].kind == Free(0) && StableBut(h, {p})
    ensures Next(h.c, p) in h.c && p !in h.live
    ensures var n, h' := Next(h.c, p), TakeStep(h, p); var m' := m[n + 4 := WithPrevInuse(Head(m, n))];
      && Inv(h') && Rep(m', h', heads) && UserSame(h.live, m, m') && StableBut(h', {p})
      && p in h'.c && h'.c[p] == h.c[p].(kind := Used)
      && Total(h'.c) == Total(h.c) && FreeTotal(h'.c) == FreeTotal(h.c) - h.c[p].size
  {
    FreeNotLive(h, p);
    TakeInv(h, p);
    TakeRep(m, h, heads, p);
    TakeStable(h, p, {p});
    assert Sound(h.c, p);
    TakeSums(h.c, p);
    assert {p} + {p} == {p};
  }

  lemma SplitStable(h: Heap, p: int, nb: int, xs: set<int>)
    requires p in h.c && Next(h.c, p) in h.c && StableBut(h, xs)
    ensures StableBut(SplitStep(h, p, nb), xs + {p, p + nb})
  {
    var h' := SplitStep(h, p, nb);
    forall q | q in h'.c && q !in xs && q != p && q != p + nb ensures Settled(h', q) { assert Settled(h, q); }
  }

  /** Everything about handing out the front of a detached free chunk. */
  lemma SplitAll(m: Mem, h: Heap, heads: seq<int>, p: int, nb: int)
    requires Inv(h) && Rep(m, h, heads) && p in h.c && h.c[p].kind == Free(0) && StableBut(h, {p})
    requires nb % 8 == 0 && MINSIZE <= nb && nb + MINSIZE <= h.c[p].size
    ensures Next(h.c, p) in h.c && p !in h.live
    ensures var rest, h' := h.c[p].size - nb, SplitStep(h, p, nb);
      var m' := m[p + 4 := nb + 1][p + nb + 4 := rest + 1][p + nb + rest := rest];
      && Inv(h') && Rep(m', h', heads) && UserSame(h.live, m, m') && StableBut(h', {p, p + nb})
      && p in h'.c && h'.c[p].kind.Used? && h'.c[p].size == nb
      && p + nb in h'.c && h'.c[p + nb].kind == Free(0)
      && Total(h'.c) == Total(h.c) && FreeTotal(h'.c) == FreeTotal(h.c) - nb
  {
    FreeNotLive(h, p);
    SplitInv(h, p, nb);
    SplitRep(m, h, heads, p, nb);
    SplitStable(h, p, nb, {p});
    SplitSums(h.c, p, nb);
    assert {p} + {p, p + nb} == {p, p + nb};
  }

  lemma SplitTopStable(h: Heap, nb: int)
    requires h.top in h.c && h.c[h.top].kind.Top? && StableBut(h, {})
    ensures StableBut(SplitTopStep(h, nb), {h.top})
  {
    var h' := SplitTopStep(h, nb);
    forall q | q in h'.c && q != h.top ensures Settled(h', q) { if q in h.c { assert Settled(h, q); } }
  }

  /** Everything about handing out the front of top. */
  lemma SplitTopAll(m: Mem, h: Heap, heads: seq<int>, nb: int)
    requires Inv(h) && Rep(m, h, heads) && StableBut(h, {}) && TopSplittable(h, nb)
    ensures h.top !in h.live
    ensures var p, h' := h.top, SplitTopStep(h, nb);
      var m' := m[p + 4 := nb + 1][p + nb + 4 := h.c[p].size - nb + 1];
      && Inv(h') && Rep(m', h', heads) && UserSame(h.live, m, m') && StableBut(h', {p})
      && p in h'.c && h'.c[p].kind.Used? && h'.c[p].size == nb
      && Total(h'.c) == Total(h.c) && FreeTotal(h'.c) == FreeTotal(h.c) - nb
  {
    TopNotLive(h);
    SplitTopInv(h, nb);
    SplitTopRep(m, h, heads, nb);
    SplitTopStable(h, nb);
    CutSums(h.c, h.top, nb);
  }

  /** Size word and links of the j-th chunk of a bin. */
  lemma BinEntry(m: Mem, h: Heap, heads: seq<int>, i: nat, j: nat)
    requires Inv(h) && Rep(m, h, heads) && 1 <= i < NBINS && j < |h.bins[i]|
    ensures h.bins[i][j] in h.c && h.c[h.bins[i][j]].kind == Free(i) && h.bins[i][j] !in h.live
    ensures Head(m, h.bins[i][j]) == h.c[h.bins[i][j]].size + 1 && ChunkSize(m, h.bins[i][j]) == h.c[h.bins[i][j]].size
    ensures Fd(m, h.bins[i][j]) == At(BinAt(i), h.bins[i], j + 1) &&
      Bk(m, h.bins[i][j]) == At(BinAt(i), h.bins[i], j - 1)
    ensures h.bins[i][j] != BinAt(i) && MINSIZE <= h.c[h.bins[i][j]].size && h.c[h.bins[i][j]].size % 8 == 0
    ensures i >= 2 ==> BinIndex(h.c[h.bins[i][j]].size) == i
  {
    var p := h.bins[i][j];
    InBin(h, i, j);
    TagsRead(m, h.c, p);
    assert Sound(h.c, p) && HeadOk(m, p, h.c[p]);
    assert ListRep(m, BinAt(i), h.bins[i]);
    assert Link(m, BinAt(i), h.bins[i], j - 1) && Link(m, BinAt(i), h.bins[i], j);
  }

  lemma BinIsSorted(h: Heap, i: nat, j: nat, k: nat)
    requires Inv(h) && 2 <= i < NBINS && j <= k < |h.bins[i]|
    ensures h.bins[i][j] in h.c && h.bins[i][k] in h.c && h.c[h.bins[i][j]].size >= h.c[h.bins[i][k]].size
  {
    InBin(h, i, j);
    InBin(h, i, k);
    assert BinSound(h.c, h.bins[i], i);
  }

  /** In a small bin all chunks have the same size. */
  lemma SmallBinSize(h: Heap, i: nat, j: nat)
    requires Inv(h) && 2 <= i < NSMALLBINS && j < |h.bins[i]|
    ensures h.bins[i][j] in h.c && h.c[h.bins[i][j]].size == 8 * i
  {
    InBin(h, i, j);
    assert Sound(h.c, h.bins[i][j]);
    BinIndexRange(h.c[h.bins[i][j]].size);
  }

  /** A chunk of exactly the wanted size is a best fit in any arena of that shape. */
  lemma ExactIsBest(c0: Arena, c: Arena, p: int, nb: int)
    requires SameShape(c0, c) && p in c && c[p].kind.Free? && c[p].size == nb
    ensures BestFit(c0, p, nb)
  {
    assert SameChunk(c0[p], c[p]);
  }

  /** With one chunk left in the queue and the exact bin empty, no other size matches. */
  lemma NoExactFit(h: Heap, c0: Arena, p: int, nb: int)
    requires Inv(h) && StableBut(h, {}) && SameShape(c0, h.c) && |h.bins| == NBINS && h.bins[1] == [p]
    requires p in h.c && h.c[p].size != nb && MINSIZE <= nb && InSmallbinRange(nb) && h.bins[SmallbinIndex(nb)] == []
    ensures forall q :: q in c0 && c0[q].kind.Free? ==> c0[q].size != nb
  {
    forall q | q in c0 && c0[q].kind.Free? ensures c0[q].size != nb {
      assert SameChunk(c0[q], h.c[q]) && Settled(h, q);
      var k := BinPosition(h, q);
      InBin(h, h.c[q].kind.bin, k);
    }
  }

  /** The last chunk of the unsorted queue is alone exactly when its bk is the header. */
  lemma AloneInQueue(m: Mem, h: Heap, heads: seq<int>)
    requires Inv(h) && Rep(m, h, heads) && h.bins[1] != []
    ensures Bk(m, h.bins[1][|h.bins[1]| - 1]) == BinAt(1) <==> |h.bins[1]| == 1
  {
    BinEntry(m, h, heads, 1, |h.bins[1]| - 1);
    BinNodesOk(h, 1);
  }

  /** chunksize(av->top): zero while the unsorted header stands in for top. */
  lemma TopSize(m: Mem, h: Heap, heads: seq<int>)
    requires Inv(h) && Rep(m, h, heads)
    ensures ChunkSize(m, h.top) == if h.top in h.c then h.c[h.top].size else 0
    ensures h.top in h.c ==> h.c[h.top].kind.Top? && h.top != 0
    ensures h.top in h.c ==> MINSIZE <= h.c[h.top].size && RoundDown8(h.c[h.top].size - 12) == h.c[h.top].size - 16
    ensures h.top !in h.c ==> h.c == map[]
  {
    if h.top in h.c {
      TagsRead(m, h.c, h.top);
      assert Sound(h.c, h.top);
    }
  }

  // ----- bundles for sYSMALLOc -----

  lemma MapAreaAll(m: Mem, h: Heap, heads: seq<int>, a: int, len: int, xs: set<int>)
    requires Inv(h) && Rep(m, h, heads) && StableBut(h, xs) && FreshArea(h.os, a, len)
    ensures var h' := MapArea(h, a, len); Inv(h') && Rep(m, h', heads) && StableBut(h', xs) && SpareArea(h', a, len)
  {
    var h' := MapArea(h, a, len);
    MapAreaInv(h, a, len);
    forall p | p in h'.c && p !in xs ensures Settled(h', p) { assert Settled(h, p); }
    forall r | r in h.regions ensures r != a { assert RegionOk(h, r); }
    forall p | p in h.mm ensures h.mm[p].base != a { assert MapSound(h, p); }
  }

  lemma GrowStable(h: Heap, a: int, len: int)
    requires Inv(h) && StableBut(h, {}) && SpareArea(h, a, len)
    ensures StableBut(GrowStep(h, a, len), if h.top in h.c && h.c[h.top].size >= 32 then {h.top} else {})
    ensures h.top in h.c && h.c[h.top].size >= 32 ==>
      Loose(GrowStep(h, a, len), h.top) && GrowStep(h, a, len).c[h.top].kind.Used?
  {
    var h' := GrowStep(h, a, len);
    if h.top in h.c {
      assert Sound(h.c, h.top) && AreaOk(h, a);
      TopNotLive(h);
      SpareApart(h, a, len, h.top);
    }
    forall p | p in h'.c && (p != h.top || h.top !in h.c || h.c[h.top].size < 32) ensures Settled(h', p) {
      if p in h.c { assert Settled(h, p); }
    }
  }

  lemma GrowTotal(h: Heap, a: int, len: int)
    requires Inv(h) && SpareArea(h, a, len)
    ensures Total(GrowStep(h, a, len).c) == Total(h.c) + len
  {
    GrowInv(h, a, len);
    if h.top in h.c {
      var p, s := h.top, h.c[h.top].size;
      assert Sound(h.c, p) && Apart(h.c, p, p + s - 16);
      RetireSums(h.c, p);
    }
    NewTopSums(Retired(h), a, len);
  }

  /** Everything about installing a new top and retiring the old one. */
  lemma GrowAll(m: Mem, h: Heap, heads: seq<int>, a: int, len: int)
    requires Inv(h) && Rep(m, h, heads) && StableBut(h, {}) && SpareArea(h, a, len)
    ensures var h', m' := GrowStep(h, a, len), GrowWrites(m, h, a, len);
      && Inv(h') && Rep(m', h', heads) && UserSame(h.live, m, m')
      && StableBut(h', if h.top in h.c && h.c[h.top].size >= 32 then {h.top} else {})
      && (h.top in h.c && h.c[h.top].size >= 32 ==> Loose(h', h.top) && h'.c[h.top].kind.Used?)
      && Total(h'.c) == Total(h.c) + len && h'.top == a && a in h'.c && h'.c[a].size == len
  {
    GrowInv(h, a, len);
    GrowRep(m, h, heads, a, len);
    GrowStable(h, a, len);
    GrowTotal(h, a, len);
  }

  lemma AddLiveAll(m: Mem, h: Heap, heads: seq<int>, p: int, req: int, xs: set<int>)
    requires Inv(h) && Rep(m, h, heads) && StableBut(h, xs)
    requires p in h.c && h.c[p].kind.Used? && 0 <= req && req + 4 <= h.c[p].size
    ensures var h' := AddLive(h, p, req);
      Inv(h') && Rep(m, h', heads) && StableBut(h', xs - {p}) && p % 8 == 0 && p >= LOW
  {
    var h' := AddLive(h, p, req);
    AddLiveInv(h, p, req);
    assert Sound(h.c, p);
    forall q | q in h'.c && q !in xs - {p} ensures Settled(h', q) { if q != p { assert Settled(h, q); } }
  }

  lemma MapChunkAll(m: Mem, h: Heap, heads: seq<int>, p: int, a: int, len: int, req: int, xs: set<int>)
    requires Inv(h) && Rep(m, h, heads) && StableBut(h, xs) && Mappable(h, p, a, len, req)
    ensures p !in h.live && p !in h.mm
    ensures var h' := MapChunk(h, p, a, len, req); var m' := m[p := p - a][p + 4 := a + len - p + 2];
      Inv(h') && Rep(m', h', heads) && StableBut(h', xs) && UserSame(h.live, m, m')
  {
    var h' := MapChunk(h, p, a, len, req);
    MapChunkInv(h, p, a, len, req);
    MapChunkRep(m, h, heads, p, a, len, req);
    SpareNotLive(h, a, len, p);
    forall q | q in h'.c && q !in xs ensures Settled(h', q) { assert Settled(h, q); }
  }

  lemma BestFitShape(c0: Arena, c: Arena, p: int, nb: int)
    requires SameShape(c0, c) && BestFit(c, p, nb)
    ensures BestFit(c0, p, nb)
  {
    assert SameChunk(c0[p], c[p]);
    forall q | q in c0 && c0[q].kind.Free? && nb <= c0[q].size ensures c0[p].size <= c0[q].size {
      assert SameChunk(c0[q], c[q]);
    }
  }

  /** With all bins empty there is no free chunk at all. */
  lemma NothingFree(h: Heap, nb: int)
    requires Inv(h) && StableBut(h, {}) && forall i :: 0 <= i < |h.bins| ==> h.bins[i] == []
    ensures NoneFits(h.c, nb)
  {
    forall q | q in h.c ensures !h.c[q].kind.Free? {
      assert Settled(h, q) && Binned(h.c, h.bins, q);
    }
  }

  lemma FastIsSmall(h: Heap, p: int)
    requires Inv(h) && p in h.c && h.c[p].kind.Fast?
    ensures InSmallbinRange(h.c[p].size)
  {
    assert Sound(h.c, p);
  }

  lemma {:induction false} ShapeSum(c: Arena, c': Arena, f: Chunk -> int)
    requires SameShape(c, c') && forall x, y :: SameChunk(x, y) ==> f(x) == f(y)
    ensures Sum(c, f) == Sum(c', f)
    decreases |c|
  {
    if c == map[] {
      assert c' == map[];
    } else {
      NonEmpty(c);
      var p :| p in c;
      SumRemove(c, p, f);
      SumRemove(c', p, f);
      assert SameChunk(c[p], c'[p]);
      assert (c - {p}).Keys == (c' - {p}).Keys;
      assert |c - {p}| < |c| by { assert c.Keys == (c - {p}).Keys + {p}; }
      forall q | q in c - {p} ensures SameChunk((c - {p})[q], (c' - {p})[q]) { assert SameChunk(c[q], c'[q]); }
      ShapeSum(c - {p}, c' - {p}, f);
    }
  }

  /** Renumbering bins moves no bytes. */
  lemma ShapeSums(c: Arena, c': Arena)
    requires SameShape(c, c')
    ensures Total(c) == Total(c') && FreeTotal(c) == FreeTotal(c')
  {
    ShapeSum(c, c', AnyBytes);
    ShapeSum(c, c', FreeBytes);
  }

  lemma ShapeTwice(c0: Arena, c1: Arena, c2: Arena)
    requires SameShape(c1, c2)
    ensures SameShape(c0, c1) ==> SameShape(c0, c2)
  {
    if SameShape(c0, c1) {
      forall q | q in c0 ensures SameChunk(c0[q], c2[q]) { assert SameChunk(c0[q], c1[q]) && SameChunk(c1[q], c2[q]); }
    }
  }

  // ----- the empty heap -----

  ghost function EmptyHeap(): Heap {
    Heap(map[], seq(NBINS, _ => []), seq(NFASTBINS, _ => []), map[], map[], map[], map[], BinAt(1))
  }

  lemma EmptyHeapOk()
    ensures Inv(EmptyHeap()) && StableBut(EmptyHeap(), {}) && Total(EmptyHeap().c) == 0
  {
    var h := EmptyHeap();
    assert Wf(h.c);
    forall i: nat | i < NBINS ensures BinSound(h.c, h.bins[i], i) { }
    forall i: nat | i < NFASTBINS ensures FastSound(h.c, h.fast[i], i) { }
    assert OsOk(h) && TopOk(h);
  }

  /** Circular headers represent empty bins. */
  lemma EmptyHeapRep(m: Mem)
    requires forall i :: 1 <= i < NBINS ==> Fd(m, BinAt(i)) == BinAt(i) && Bk(m, BinAt(i)) == BinAt(i)
    requires Rd(m, BINS + 4) == 0
    ensures Rep(m, EmptyHeap(), seq(NFASTBINS, _ => 0))
  {
    var h, heads := EmptyHeap(), seq(NFASTBINS, _ => 0);
    forall i | 1 <= i < |h.bins| ensures ListRep(m, BinAt(i), h.bins[i]) {
      forall j | -1 <= j < 0 ensures Link(m, BinAt(i), h.bins[i], j) { }
    }
    forall i | 0 <= i < |h.fast| ensures FastRep(m, heads[i], h.fast[i]) { }
  }

  // ----- bundles for free -----

  /** What the tags of a block say: mapped chunks are marked, and are always
      larger than any fastbin chunk. */
  lemma BlockTags(m: Mem, h: Heap, heads: seq<int>, p: int)
    requires Inv(h) && Rep(m, h, heads) && p in h.live
    ensures p !in h.mm ==> p in h.c && h.c[p].kind.Used? && ChunkSize(m, p) == h.c[p].size && !IsMmapped(m, p)
    ensures p !in h.mm ==> h.live[p].end == p + h.c[p].size + 4 && MINSIZE <= h.c[p].size && h.c[p].size % 8 == 0
    ensures p in h.mm ==>
      IsMmapped(m, p) && ChunkSize(m, p) == h.mm[p].base + h.mm[p].len - p && Foot(m, p) == p - h.mm[p].base
    ensures p in h.mm ==>
      ChunkSize(m, p) > MAX_FAST + 3 && h.live[p].end == p + ChunkSize(m, p) && ChunkSize(m, p) % 8 == 0
  {
    assert LiveSound(h, p);
    if p in h.mm {
      MappedTags(m, h, p);
    } else {
      TagsRead(m, h.c, p);
      assert Sound(h.c, p);
    }
  }

  lemma MappedTags(m: Mem, h: Heap, p: int)
    requires Inv(h) && MapHeads(m, h.mm) && p in h.mm && p in h.live
    ensures IsMmapped(m, p) && ChunkSize(m, p) == h.mm[p].base + h.mm[p].len - p && Foot(m, p) == p - h.mm[p].base
    ensures ChunkSize(m, p) > MAX_FAST + 3 && h.live[p].end == p + ChunkSize(m, p) && ChunkSize(m, p) % 8 == 0
  {
    assert LiveSound(h, p) && MapSound(h, p) && MapHead(m, p, h.mm[p]) && AreaOk(h, h.mm[p].base);
    MappedLength(h.mm[p].base, h.mm[p].len, p);
    MappedBits(h.mm[p].base + h.mm[p].len - p);
  }

  lemma MappedLength(base: int, len: int, p: int)
    requires base % PAGE == 0 && len % PAGE == 0 && p % 8 == 0
    ensures (base + len - p) % 8 == 0
  {
    var i, j, k := base / PAGE, len / PAGE, p / 8;
    assert base == 4096 * i && len == 4096 * j && p == 8 * k;
    Eights(base + len - p, 512 * i + 512 * j - k);
  }

  lemma MappedBits(s: int)
    requires s % 8 == 0 && s > MAX_FAST
    ensures (s + 2) % 4 == 2 && (s + 2) / 2 % 2 == 1 && s > MAX_FAST + 3
  {
    var k := s / 8;
    EightBits(k);
    assert s == 8 * k;
  }

  lemma EightBits(k: int)
    ensures (8 * k + 2) % 4 == 2 && (8 * k + 2) / 2 == 4 * k + 1 && (4 * k + 1) % 2 == 1
  {
  }

  lemma DropLiveAll(m: Mem, h: Heap, heads: seq<int>, p: int, xs: set<int>)
    requires Inv(h) && Rep(m, h, heads) && StableBut(h, xs) && p in h.live && p !in h.mm
    ensures var h' := DropLive(h, p);
      Inv(h') && Rep(m, h', heads) && StableBut(h', xs + {p}) && Loose(h', p) && h'.c[p].kind.Used?
  {
    var h' := DropLive(h, p);
    DropLiveInv(h, p);
    assert LiveSound(h, p);
    forall q | q in h'.c && q !in xs && q != p ensures Settled(h', q) { assert Settled(h, q); }
  }

  /** Two neighbouring blocks given up at once, ready to be glued. */
  lemma JoinAll(m: Mem, h: Heap, heads: seq<int>, p: int, n: int)
    requires Inv(h) && Rep(m, h, heads) && StableBut(h, {}) && p in h.live && p !in h.mm && p in h.c
    requires n == Next(h.c, p) && n in h.live && n !in h.mm && n in h.c
    ensures var h' := DropLive(DropLive(h, p), n);
      && Inv(h') && Rep(m, h', heads) && StableBut(h', {p, n}) && h'.c == h.c
      && Stretched(h', Join(h.c, p), p, Next(h.c, n)) && Total(Join(h.c, p)) == Total(h.c)
  {
    assert Sound(h.c, p) && Sound(h.c, n);
    DropLiveAll(m, h, heads, p, {});
    var h1 := DropLive(h, p);
    DropLiveAll(m, h1, heads, n, {p});
    assert {} + {p} == {p} && {p} + {n} == {p, n};
    StretchUsed(DropLive(h1, n), p);
    JoinSums(h.c, p);
  }

  lemma UnmapAll(m: Mem, h: Heap, heads: seq<int>, p: int)
    requires Inv(h) && Rep(m, h, heads) && StableBut(h, {}) && p in h.mm
    ensures p in h.live && h.mm[p].base in h.os
    ensures var h' := UnmapArea(DropMap(h, p), h.mm[p].base);
      Inv(h') && Rep(m, h', heads) && StableBut(h', {})
  {
    assert MapSound(h, p);
    DropMapInv(h, p);
    var h1 := DropMap(h, p);
    DropMapRep(m, h, heads, p);
    UnmapAreaInv(h1, h.mm[p].base, h.mm[p].len);
    var h' := UnmapArea(h1, h.mm[p].base);
    forall q | q in h'.c ensures Settled(h', q) {
      assert Settled(h, q);
      ChunkNotMapped(h, q);
    }
  }

  // ----- bundles for realloc and memalign -----

  /** The program's request changes; the mapped chunk stays as it is. */
  lemma KeepMapAll(m: Mem, h: Heap, heads: seq<int>, p: int, req: int)
    requires Inv(h) && Rep(m, h, heads) && StableBut(h, {}) && p in h.mm && p in h.live && 0 <= req &&
      p + 8 + req <= h.live[p].end
    ensures var h' := h.(live := h.live[p := h.live[p].(req := req)]);
      Inv(h') && Rep(m, h', heads) && StableBut(h', {})
  {
    var h' := h.(live := h.live[p := h.live[p].(req := req)]);
    forall q | q in h'.live ensures LiveSound(h', q) { assert LiveSound(h, q); }
    SameOs(h, h');
    forall x ensures OnlyTop(h', x) { assert OnlyTop(h, x); }
    forall q | q in h'.c ensures Settled(h', q) { assert Settled(h, q); }
  }

  lemma StretchedStable(h: Heap, c1: Arena, p: int, e: int, xs: set<int>)
    requires Stretched(h, c1, p, e) && StableBut(h, xs) && forall x :: x in xs ==> p <= x < e
    ensures StableBut(h.(c := c1), {p})
  {
    var h' := h.(c := c1);
    forall q | q in h'.c && q != p ensures Settled(h', q) {
      assert q < p || e <= q;
      assert Settled(h, q);
    }
  }

  /** The stretched chunk keeps its whole length and becomes a block. */
  lemma FinishWholeAll(m: Mem, h: Heap, heads: seq<int>, c1: Arena, p: int, e: int, xs: set<int>, req: int)
    requires Inv(h) && Rep(m, h, heads) && Stretched(h, c1, p, e) && StableBut(h, xs)
    requires (forall x :: x in xs ==> p <= x < e) && 0 <= req && req + 4 <= e - p
    ensures var m' := m[p + 4 := e - p + Head(m, p) % 2][e + 4 := WithPrevInuse(Head(m, e))];
      var h' := AddLive(h.(c := c1), p, req);
      && Inv(h') && Rep(m', h', heads) && StableBut(h', {}) && UserSame(h.live, m, m')
      && (forall a {:trigger Rd(m', a)} :: p + 8 <= a < e + 4 ==> Rd(m', a) == Rd(m, a))
  {
    var m' := m[p + 4 := e - p + Head(m, p) % 2][e + 4 := WithPrevInuse(Head(m, e))];
    var h1 := h.(c := c1);
    StretchedInv(h, c1, p, e);
    StretchedRep(m, m', h, heads, c1, p, e);
    StretchedStable(h, c1, p, e, xs);
    AddLiveAll(m', h1, heads, p, req, {p});
    assert {p} - {p} == {};
  }

  lemma CutStable(h: Heap, p: int, nb: int)
    requires p in h.c && h.c[p].kind.Used? && StableBut(h, {p})
    ensures StableBut(h.(c := Cut(h.c, p, nb)), {p, p + nb})
  {
    var h' := h.(c := Cut(h.c, p, nb));
    forall q | q in h'.c && q != p && q != p + nb ensures Settled(h', q) { assert Settled(h, q); }
  }

  /** The stretched chunk is cut; its front becomes a block, its tail is loose. */
  lemma FinishCutAll(m: Mem, h: Heap, heads: seq<int>, c1: Arena, p: int, e: int, nb: int, xs: set<int>, req: int)
    requires Inv(h) && Rep(m, h, heads) && Stretched(h, c1, p, e) && StableBut(h, xs)
    requires (forall x :: x in xs ==> p <= x < e) && 0 <= req && req + 4 <= nb
    requires nb % 8 == 0 && MINSIZE <= nb && nb + MINSIZE <= e - p
    ensures var m' := m[p + 4 := nb + Head(m, p) % 2][p + nb + 4 := e - p - nb + 1][e + 4 := WithPrevInuse(Head(m, e))];
      var h' := AddLive(h.(c := Cut(c1, p, nb)), p, req);
      && Inv(h') && Rep(m', h', heads) && StableBut(h', {p + nb}) && UserSame(h.live, m, m')
      && Loose(h', p + nb) && h'.c[p + nb].kind.Used? && Total(h'.c) == Total(c1)
      && (forall a {:trigger Rd(m', a)} :: p + 8 <= a < p + nb + 4 ==> Rd(m', a) == Rd(m, a))
  {
    var m' := m[p + 4 := nb + Head(m, p) % 2][p + nb + 4 := e - p - nb + 1][e + 4 := WithPrevInuse(Head(m, e))];
    var h1 := h.(c := Cut(c1, p, nb));
    CutStretchedInv(h, c1, p, e, nb);
    CutStretchedRep(m, m', h, heads, c1, p, e, nb);
    StretchedStable(h, c1, p, e, xs);
    CutStable(h.(c := c1), p, nb);
    AddLiveAll(m', h1, heads, p, req, {p, p + nb});
    assert {p, p + nb} - {p} == {p + nb};
    CutSums(c1, p, nb);
  }

  /** A block is cut in place; its front stays a block, its tail is loose. */
  lemma CutBlockAll(m: Mem, h: Heap, heads: seq<int>, p: int, nb: int, req: int)
    requires Inv(h) && Rep(m, h, heads) && StableBut(h, {}) && p in h.live && p !in h.mm && p in h.c
    requires nb % 8 == 0 && MINSIZE <= nb && nb + MINSIZE <= h.c[p].size && 0 <= req && req + 4 <= nb
    ensures var e := Next(h.c, p);
      var m' := m[p + 4 := nb + Head(m, p) % 2][p + nb + 4 := e - p - nb + 1][e + 4 := WithPrevInuse(Head(m, e))];
      var h' := AddLive(DropLive(h, p).(c := Cut(h.c, p, nb)), p, req);
      && Inv(h') && Rep(m', h', heads) && StableBut(h', {p + nb}) && UserSame(h.live - {p}, m, m')
      && Loose(h', p + nb) && h'.c[p + nb].kind.Used? && Total(h'.c) == Total(h.c)
      && e + 4 in m && m[e + 4] == WithPrevInuse(Head(m, e))
  {
    assert LiveSound(h, p) && Sound(h.c, p);
    NextBitSet(m, h, p);
    DropLiveAll(m, h, heads, p, {});
    assert {} + {p} == {p};
    var h1 := DropLive(h, p);
    StretchNone(h1, p);
    FinishCutAll(m, h1, heads, h1.c, p, Next(h.c, p), nb, {p}, req);
  }

  /** A used chunk's successor already carries the in-use bit. */
  lemma NextBitSet(m: Mem, h: Heap, p: int)
    requires Inv(h) && HeadsOk(m, h.c) && p in h.c && h.c[p].kind.Used?
    ensures var e := Next(h.c, p);
      e + 4 in m && m[e + 4] == WithPrevInuse(Head(m, e))
  {
    assert Sound(h.c, p);
    var e := Next(h.c, p);
    assert HeadOk(m, e, h.c[e]) && Sound(h.c, e);
    TagsRead(m, h.c, e);
  }

  /** A mapped chunk moves up inside its mapping. */
  ghost function Slide(h: Heap, p: int, b: int, req: int): Heap
    requires p in h.mm
  {
    MapChunk(DropMap(h, p), b, h.mm[p].base, h.mm[p].len, req)
  }

  lemma SlideAll(m: Mem, h: Heap, heads: seq<int>, p: int, b: int, req: int)
    requires Inv(h) && Rep(m, h, heads) && StableBut(h, {}) && p in h.mm
    requires b % 8 == 0 && p < b && b + MAX_FAST < h.mm[p].base + h.mm[p].len && 0 <= req &&
      b + 8 + req <= h.mm[p].base + h.mm[p].len
    ensures p in h.live && b !in h.live && b !in h.mm
    ensures var h' := Slide(h, p, b, req);
      var m' := m[b := b - h.mm[p].base][b + 4 := h.mm[p].base + h.mm[p].len - b + 2];
      Inv(h') && Rep(m', h', heads) && StableBut(h', {}) && UserSame(h.live - {p}, m, m')
  {
    assert MapSound(h, p);
    DropMapInv(h, p);
    DropMapRep(m, h, heads, p);
    var h1 := DropMap(h, p);
    forall q | q in h1.c ensures Settled(h1, q) {
      assert Settled(h, q);
      ChunkNotMapped(h, q);
    }
    MapChunkAll(m, h1, heads, b, h.mm[p].base, h.mm[p].len, req, {});
  }

  /** A block grows into top. */
  ghost function ShiftedTop(h: Heap, p: int, nb: int, req: int): Heap
    requires p in h.c && Next(h.c, p) in h.c
  {
    h.(c := ShiftTop(h.c, p, nb), top := p + nb, live := (h.live - {p})[p := Block(req, p + nb + 4)])
  }

  lemma ShiftTopAll(m: Mem, h: Heap, heads: seq<int>, p: int, nb: int, req: int)
    requires Inv(h) && Rep(m, h, heads) && StableBut(h, {}) && p in h.live && p !in h.mm && p in h.c
    requires Next(h.c, p) == h.top && h.top in h.c && 0 <= req && req + 4 <= nb && nb % 8 == 0
    requires h.c[p].size < nb && nb + MINSIZE <= h.c[p].size + h.c[h.top].size
    ensures var e := Next(h.c, h.top);
      var m' := m[p + 4 := nb + Head(m, p) % 2][p + nb + 4 := e - p - nb + 1];
      var h' := ShiftedTop(h, p, nb, req);
      && Inv(h') && Rep(m', h', heads) && StableBut(h', {}) && UserSame(h.live - {p}, m, m')
      && Total(h'.c) == Total(h.c)
      && (forall a {:trigger Rd(m', a)} :: p + 8 <= a < p + h.c[p].size + 4 ==> Rd(m', a) == Rd(m, a))
  {
    DropLiveAll(m, h, heads, p, {});
    assert {} + {p} == {p};
    LooseShiftTopAll(m, DropLive(h, p), heads, p, nb);
    var m' := m[p + 4 := nb + Head(m, p) % 2][p + nb + 4 := Next(h.c, h.top) - p - nb + 1];
    var h2 := DropLive(h, p).(c := ShiftTop(h.c, p, nb), top := p + nb);
    AddLiveAll(m', h2, heads, p, req, {p});
    assert {p} - {p} == {};
  }

  /** The same for a chunk that is no block at the moment. */
  lemma LooseShiftTopAll(m: Mem, h: Heap, heads: seq<int>, p: int, nb: int)
    requires Inv(h) && Rep(m, h, heads) && StableBut(h, {p}) && p !in h.live && p in h.c && h.c[p].kind.Used?
    requires Next(h.c, p) == h.top && h.top in h.c && nb % 8 == 0
    requires h.c[p].size < nb && nb + MINSIZE <= h.c[p].size + h.c[h.top].size
    ensures var m' := m[p + 4 := nb + Head(m, p) % 2][p + nb + 4 := Next(h.c, h.top) - p - nb + 1];
      var h' := h.(c := ShiftTop(h.c, p, nb), top := p + nb);
      && Inv(h') && Rep(m', h', heads) && StableBut(h', {p}) && UserSame(h.live, m, m') && Total(h'.c) == Total(h.c)
      && p in h'.c && h'.c[p].kind.Used? && h'.c[p].size == nb
  {
    ShiftTopInv(h, p, nb);
    ShiftTopRep(m, h, heads, p, nb);
    ShiftTopStable(h, p, nb);
    assert Sound(h.c, p) && Sound(h.c, h.top) && Apart(h.c, p, p + nb) && Apart(h.c, h.top, p + nb);
    ShiftTopTotal(h.c, p, nb);
  }

  lemma ShiftTopStable(h: Heap, p: int, nb: int)
    requires p in h.c && Next(h.c, p) in h.c && StableBut(h, {p})
    ensures StableBut(h.(c := ShiftTop(h.c, p, nb), top := p + nb), {p})
  {
    var h' := h.(c := ShiftTop(h.c, p, nb), top := p + nb);
    forall q | q in h'.c && q != p ensures Settled(h', q) { if q != p + nb { assert Settled(h, q); } }
  }
}
