/** The allocator's state as mathematics: the arena, the contents of every bin
    and fastbin, the blocks the program owns, and what memory must hold. */
module HeapState {
  import opened Word32
  import opened MallocSizes
  import opened ChunkMemory
  import opened Chunks

  /** Address of av->bins; bin headers are addressed as if they were chunks. */
  const BINS := 0x1000

  function BinAt(i: int): int { BINS + 8 * i - 8 }

  /** A block in the program's hands: bytes asked for, end of its user area. */
  datatype Block = Block(req: int, end: int)

  /** The mapping behind a chunk obtained directly from mmap. */
  datatype Mapping = Mapping(base: int, len: int)

  /** live is keyed by chunk address; the user area of p is [p + 8, end). */
  datatype Heap = Heap(
    c: Arena,
    bins: seq<seq<int>>,
    fast: seq<seq<int>>,
    live: map<int, Block>,
    mm: map<int, Mapping>,
    regions: map<int, int>,
    os: map<int, int>,
    top: int)

  // ----- bins -----

  ghost predicate SortedBin(c: Arena, s: seq<int>) {
    forall j, k :: 0 <= j < k < |s| && s[j] in c && s[k] in c ==> c[s[j]].size >= c[s[k]].size
  }

  ghost predicate BinMember(c: Arena, p: int, i: nat) {
    && p in c && c[p].kind == Free(i)
    && (i >= 2 ==> c[p].size >= 0 && BinIndex(c[p].size) == i)
  }

  /** Bin i holds distinct free chunks of its own index; sized bins are sorted,
      largest first. */
  ghost predicate BinSound(c: Arena, s: seq<int>, i: nat) {
    && Distinct(s)
    && (forall k :: 0 <= k < |s| ==> BinMember(c, s[k], i))
    && (i >= 2 ==> SortedBin(c, s))
  }

  ghost predicate Binned(c: Arena, bins: seq<seq<int>>, p: int) {
    p in c && c[p].kind.Free? && c[p].kind.bin > 0 ==> c[p].kind.bin < |bins| && p in bins[c[p].kind.bin]
  }

  ghost predicate BinsOk(c: Arena, bins: seq<seq<int>>) {
    && |bins| == NBINS && bins[0] == []
    && (forall i {:trigger BinSound(c, bins[i], i)} :: 0 <= i < NBINS ==> BinSound(c, bins[i], i))
    && (forall p {:trigger Binned(c, bins, p)} :: Binned(c, bins, p))
  }

  // ----- fastbins -----

  ghost predicate FastMember(c: Arena, p: int, i: int) {
    p in c && c[p].kind.Fast? && c[p].size == 8 * (i + 2)
  }

  ghost predicate FastSound(c: Arena, s: seq<int>, i: int) {
    && Distinct(s)
    && (forall k :: 0 <= k < |s| ==> FastMember(c, s[k], i))
  }

  ghost predicate InFastbin(c: Arena, fast: seq<seq<int>>, p: int) {
    p in c && c[p].kind.Fast? ==> 0 <= FastbinIndex(c[p].size) < |fast| && p in fast[FastbinIndex(c[p].size)]
  }

  ghost predicate FastOk(c: Arena, fast: seq<seq<int>>) {
    && |fast| == NFASTBINS
    && (forall i {:trigger FastSound(c, fast[i], i)} :: 0 <= i < NFASTBINS ==> FastSound(c, fast[i], i))
    && (forall p {:trigger InFastbin(c, fast, p)} :: InFastbin(c, fast, p))
  }

  // ----- blocks, mappings, regions, top -----

  ghost predicate LiveSound(h: Heap, p: int)
    requires p in h.live
  {
    && 0 <= h.live[p].req
    && if p in h.mm then h.live[p].end == h.mm[p].base + h.mm[p].len && p + 8 + h.live[p].req <= h.live[p].end
       else p in h.c && h.c[p].kind.Used? && h.live[p].end == p + h.c[p].size + 4 && h.live[p].req + 4 <= h.c[p].size
  }

  /** A mapped chunk sits in a mapping of its own and is never small enough to
      be mistaken for a fastbin chunk. */
  ghost predicate MapSound(h: Heap, p: int)
    requires p in h.mm
  {
    var x := h.mm[p];
    && p in h.live && p % 8 == 0
    && x.base in h.os && h.os[x.base] == x.len && x.base !in h.regions
    && x.base <= p && p + MAX_FAST < x.base + x.len
  }

  ghost predicate MapsApart(h: Heap, p: int, q: int) {
    p in h.mm && q in h.mm && p != q ==> h.mm[p].base != h.mm[q].base
  }

  ghost predicate AreaOk(h: Heap, a: int)
    requires a in h.os
  {
    && a % PAGE == 0 && h.os[a] % PAGE == 0 && LOW <= a && 0 < h.os[a] && a + h.os[a] <= WORD
  }

  ghost predicate AreasApart(h: Heap, a: int, b: int) {
    a in h.os && b in h.os && a < b ==> a + h.os[a] <= b
  }

  ghost predicate RegionOk(h: Heap, r: int)
    requires r in h.regions
  {
    r in h.os && h.os[r] == h.regions[r]
  }

  ghost predicate OsOk(h: Heap) {
    && (forall a {:trigger AreaOk(h, a)} :: a in h.os ==> AreaOk(h, a))
    && (forall a, b {:trigger AreasApart(h, a, b)} :: AreasApart(h, a, b))
    && (forall r {:trigger RegionOk(h, r)} :: r in h.regions ==> RegionOk(h, r))
    && (forall p {:trigger MapSound(h, p)} :: p in h.mm ==> MapSound(h, p))
    && (forall p, q {:trigger MapsApart(h, p, q)} :: MapsApart(h, p, q))
  }

  ghost predicate OnlyTop(h: Heap, p: int) {
    p in h.c && h.c[p].kind.Top? ==> p == h.top
  }

  /** Before the first growth the unsorted bin's header stands in for top. */
  ghost predicate TopOk(h: Heap) {
    && (if h.top == BinAt(1) then h.c == map[] else h.top in h.c && h.c[h.top].kind.Top?)
    && (forall p {:trigger OnlyTop(h, p)} :: OnlyTop(h, p))
  }

  /** The heap invariant; it also holds between the steps of an operation,
      when chunks may be detached (Free(0)) or used but not yet handed out. */
  ghost predicate Inv(h: Heap) {
    && Wf(h.c) && Tiled(h.c, h.regions)
    && BinsOk(h.c, h.bins) && FastOk(h.c, h.fast)
    && (forall p {:trigger LiveSound(h, p)} :: p in h.live ==> LiveSound(h, p))
    && OsOk(h) && TopOk(h)
  }

  /** Between operations every free chunk is in a bin and every used chunk is
      in the program's hands. */
  ghost predicate Settled(h: Heap, p: int)
    requires p in h.c
  {
    (h.c[p].kind.Used? ==> p in h.live) && h.c[p].kind != Free(0)
  }

  // ----- what memory holds -----

  ghost function HeadWord(x: Chunk): int {
    (if x.kind.Fence? then 4 else x.size) + (if x.psize == 0 then 1 else 0)
  }

  /** Head and, after a free chunk, foot; the second fencepost of a region. */
  ghost predicate HeadOk(m: Mem, p: int, x: Chunk) {
    && Head(m, p) == HeadWord(x)
    && (x.psize != 0 ==> Foot(m, p) == x.psize)
    && (x.kind.Fence? ==> Rd(m, p + 8) == 5)
  }

  ghost predicate HeadsOk(m: Mem, c: Arena) {
    forall p {:trigger HeadOk(m, p, c[p])} :: p in c ==> HeadOk(m, p, c[p])
  }

  ghost predicate BinLists(m: Mem, bins: seq<seq<int>>) {
    forall i {:trigger ListRep(m, BinAt(i), bins[i])} :: 1 <= i < |bins| ==> ListRep(m, BinAt(i), bins[i])
  }

  ghost predicate FastLists(m: Mem, fast: seq<seq<int>>, heads: seq<int>) {
    && |heads| == |fast|
    && forall i {:trigger FastRep(m, heads[i], fast[i])} :: 0 <= i < |fast| ==> FastRep(m, heads[i], fast[i])
  }

  ghost predicate MapHead(m: Mem, p: int, x: Mapping) {
    Head(m, p) == x.base + x.len - p + 2 && Foot(m, p) == p - x.base
  }

  ghost predicate MapHeads(m: Mem, mm: map<int, Mapping>) {
    forall p {:trigger MapHead(m, p, mm[p])} :: p in mm ==> MapHead(m, p, mm[p])
  }

  ghost predicate Rep(m: Mem, h: Heap, heads: seq<int>) {
    && HeadsOk(m, h.c)
    && BinLists(m, h.bins)
    && FastLists(m, h.fast, heads)
    && MapHeads(m, h.mm)
    && Rd(m, BINS + 4) == 0
  }

  /** No word of any block in the program's hands differs. */
  ghost predicate UserSame(live: map<int, Block>, m: Mem, m': Mem) {
    forall p, a {:trigger live[p], Rd(m', a)} :: p in live && p + 8 <= a < live[p].end ==> Rd(m', a) == Rd(m, a)
  }

  /** Reading the tags of a chunk back. */
  lemma TagsRead(m: Mem, c: Arena, p: int)
    requires Wf(c) && HeadsOk(m, c) && p in c
    ensures ChunkSize(m, p) == if c[p].kind.Fence? then 4 else c[p].size
    ensures PrevInuse(m, p) <==> c[p].psize == 0
    ensures c[p].psize != 0 ==> Foot(m, p) == c[p].psize
    ensures !IsMmapped(m, p)
    ensures Head(m, p) % 2 == if c[p].psize == 0 then 1 else 0
    ensures WithPrevInuse(Head(m, p)) == HeadWord(c[p].(psize := 0))
  {
    assert Sound(c, p) && HeadOk(m, p, c[p]);
    FlagBits(if c[p].kind.Fence? then 4 else c[p].size, Head(m, p));
  }

  lemma FlagBits(s: int, h: int)
    requires s % 8 == 0 || s == 4
    requires h == s || h == s + 1
    ensures h % 4 == h - s && h % 2 == h - s && h / 2 % 2 == 0
  {
    var k := if s == 4 then 1 else s / 8 * 2;
    assert s == 4 * k;
    DivUnique(h, 4, k, h - s);
    DivUnique(h, 2, 2 * k, h - s);
    DivUnique(h / 2, 2, k, 0);
  }

  // ----- changes confined to a window of the arena -----

  ghost predicate Plain(x: Chunk) { !x.kind.Fast? && (x.kind.Free? ==> x.kind.bin == 0) }

  ghost predicate Outside(h: Heap, c': Arena, lo: int, hi: int, x: int) {
    && (x < lo || hi <= x ==> (x in h.c <==> x in c'))
    && (x in h.c && x in c' && (x < lo || hi < x) ==> c'[x] == h.c[x])
    && (x == hi && x in h.c && x in c' ==> c'[x] == h.c[x].(psize := c'[x].psize))
    && (lo <= x < hi ==> (x in h.c ==> Plain(h.c[x]) && x !in h.live) && (x in c' ==> Plain(c'[x])))
  }

  /** The arena changes only in [lo, hi), plus the tag of the chunk at hi, and
      nothing in that window is queued in a bin or in the program's hands. */
  ghost predicate Window(h: Heap, c': Arena, lo: int, hi: int) {
    && lo in h.c && lo in c'
    && (forall x {:trigger Outside(h, c', lo, hi, x)} :: Outside(h, c', lo, hi, x))
  }

  /** Memory changes only from the head of lo up to, excluding, lim. */
  ghost predicate MemWindow(m: Mem, m': Mem, lo: int, lim: int) {
    forall a {:trigger Rd(m', a)} :: a < lo + 4 || lim <= a ==> Rd(m', a) == Rd(m, a)
  }

  lemma WindowBins(h: Heap, c': Arena, lo: int, hi: int)
    requires BinsOk(h.c, h.bins) && Window(h, c', lo, hi)
    ensures BinsOk(c', h.bins)
  {
    forall i | 0 <= i < NBINS ensures BinSound(c', h.bins[i], i) {
      assert BinSound(h.c, h.bins[i], i);
      forall k | 0 <= k < |h.bins[i]|
        ensures BinMember(c', h.bins[i][k], i) && c'[h.bins[i][k]].size == h.c[h.bins[i][k]].size
      {
        assert BinMember(h.c, h.bins[i][k], i);
        assert Outside(h, c', lo, hi, h.bins[i][k]);
      }
    }
    forall p ensures Binned(c', h.bins, p) {
      assert Binned(h.c, h.bins, p) && Outside(h, c', lo, hi, p);
    }
  }

  lemma WindowFast(h: Heap, c': Arena, lo: int, hi: int)
    requires FastOk(h.c, h.fast) && Window(h, c', lo, hi)
    ensures FastOk(c', h.fast)
  {
    forall i | 0 <= i < NFASTBINS ensures FastSound(c', h.fast[i], i) {
      assert FastSound(h.c, h.fast[i], i);
      forall k | 0 <= k < |h.fast[i]| ensures FastMember(c', h.fast[i][k], i) {
        assert FastMember(h.c, h.fast[i][k], i);
        assert Outside(h, c', lo, hi, h.fast[i][k]);
      }
    }
    forall p ensures InFastbin(c', h.fast, p) {
      assert InFastbin(h.c, h.fast, p) && Outside(h, c', lo, hi, p);
    }
  }

  /** A change confined to a window keeps the invariant once the arena itself is sound. */
  lemma WindowInv(h: Heap, c': Arena, top': int, lo: int, hi: int)
    requires Inv(h) && Window(h, c', lo, hi)
    requires Wf(c') && Tiled(c', h.regions) && TopOk(h.(c := c', top := top'))
    ensures Inv(h.(c := c', top := top'))
  {
    var h' := h.(c := c', top := top');
    WindowBins(h, c', lo, hi);
    WindowFast(h, c', lo, hi);
    forall p | p in h'.live ensures LiveSound(h', p) {
      assert LiveSound(h, p) && Outside(h, c', lo, hi, p);
    }
    SameOs(h, h');
  }

  lemma SameOs(h: Heap, h': Heap)
    requires OsOk(h) && h'.os == h.os && h'.regions == h.regions && h'.mm == h.mm
    requires h.live.Keys <= h'.live.Keys
    ensures OsOk(h')
  {
    forall a | a in h'.os ensures AreaOk(h', a) { assert AreaOk(h, a); }
    forall a, b ensures AreasApart(h', a, b) { assert AreasApart(h, a, b); }
    forall r | r in h'.regions ensures RegionOk(h', r) { assert RegionOk(h, r); }
    forall p | p in h'.mm ensures MapSound(h', p) { assert MapSound(h, p); }
    forall p, q ensures MapsApart(h', p, q) { assert MapsApart(h, p, q); }
  }

  /** The memory written in a window stays inside its region. */
  ghost predicate WindowLimit(h: Heap, lo: int, hi: int, lim: int) {
    && lo in h.c && h.c[lo].reg in h.regions
    && lim <= h.c[lo].reg + h.regions[h.c[lo].reg]
    && (lim == hi || (lim == hi + 8 && hi in h.c))
    && lo < hi
  }

  lemma WindowBinLists(m: Mem, m': Mem, h: Heap, lo: int, hi: int, lim: int, c': Arena)
    requires Inv(h) && BinLists(m, h.bins) && Window(h, c', lo, hi)
    requires WindowLimit(h, lo, hi, lim) && MemWindow(m, m', lo, lim)
    ensures BinLists(m', h.bins)
  {
    assert Sound(h.c, lo);
    forall i | 1 <= i < |h.bins| ensures ListRep(m', BinAt(i), h.bins[i]) {
      assert ListRep(m, BinAt(i), h.bins[i]) && BinSound(h.c, h.bins[i], i);
      var s := h.bins[i];
      forall j | 0 <= j < |s| ensures Fd(m', s[j]) == Fd(m, s[j]) && Bk(m', s[j]) == Bk(m, s[j]) {
        assert BinMember(h.c, s[j], i) && Sound(h.c, s[j]);
        OutsideWindow(h, c', lo, hi, s[j]);
      }
      ListFrame(m, m', BinAt(i), s);
    }
  }

  /** A queued chunk lies entirely before the window or entirely after it. */
  lemma OutsideWindow(h: Heap, c': Arena, lo: int, hi: int, x: int)
    requires Wf(h.c) && Window(h, c', lo, hi)
    requires x in h.c && (!Plain(h.c[x]) || x in h.live)
    ensures x + h.c[x].size <= lo || hi <= x
  {
    assert Outside(h, c', lo, hi, x) && Apart(h.c, x, lo);
  }

  lemma WindowFastLists(m: Mem, m': Mem, h: Heap, lo: int, hi: int, lim: int, c': Arena, heads: seq<int>)
    requires Inv(h) && FastLists(m, h.fast, heads) && Window(h, c', lo, hi)
    requires WindowLimit(h, lo, hi, lim) && MemWindow(m, m', lo, lim)
    ensures FastLists(m', h.fast, heads)
  {
    forall i | 0 <= i < |h.fast| ensures FastRep(m', heads[i], h.fast[i]) {
      assert FastRep(m, heads[i], h.fast[i]) && FastSound(h.c, h.fast[i], i);
      var s := h.fast[i];
      forall j | 0 <= j < |s| ensures Fd(m', s[j]) == Fd(m, s[j]) {
        assert FastMember(h.c, s[j], i) && Sound(h.c, s[j]);
        OutsideWindow(h, c', lo, hi, s[j]);
      }
      FastFrame(m, m', heads[i], s);
    }
  }

  /** Mapped chunks live outside every region of the arena. */
  lemma MapOutsideRegion(h: Heap, p: int, r: int)
    requires Inv(h) && p in h.mm && r in h.regions
    ensures h.mm[p].base + h.mm[p].len <= r || r + h.regions[r] <= h.mm[p].base
    ensures h.mm[p].base <= p && p + 12 <= h.mm[p].base + h.mm[p].len
  {
    assert MapSound(h, p) && RegionOk(h, r);
    assert AreasApart(h, h.mm[p].base, r) && AreasApart(h, r, h.mm[p].base);
  }

  lemma WindowMapHeads(m: Mem, m': Mem, h: Heap, lo: int, hi: int, lim: int)
    requires Inv(h) && MapHeads(m, h.mm)
    requires WindowLimit(h, lo, hi, lim) && MemWindow(m, m', lo, lim)
    ensures MapHeads(m', h.mm)
  {
    assert Sound(h.c, lo);
    forall p | p in h.mm ensures MapHead(m', p, h.mm[p]) {
      assert MapHead(m, p, h.mm[p]);
      MapOutsideRegion(h, p, h.c[lo].reg);
    }
  }

  lemma WindowUserSame(m: Mem, m': Mem, h: Heap, c': Arena, lo: int, hi: int, lim: int)
    requires Inv(h) && Window(h, c', lo, hi)
    requires WindowLimit(h, lo, hi, lim) && MemWindow(m, m', lo, lim)
    ensures UserSame(h.live, m, m')
  {
    assert Sound(h.c, lo);
    forall p, a | p in h.live && p + 8 <= a < h.live[p].end ensures Rd(m', a) == Rd(m, a) {
      assert LiveSound(h, p);
      if p in h.mm {
        MapOutsideRegion(h, p, h.c[lo].reg);
      } else {
        OutsideWindow(h, c', lo, hi, p);
      }
    }
  }

  /** Tags outside the window are untouched. */
  lemma WindowHeads(m: Mem, m': Mem, h: Heap, c': Arena, lo: int, hi: int, lim: int)
    requires Inv(h) && HeadsOk(m, h.c) && Window(h, c', lo, hi)
    requires WindowLimit(h, lo, hi, lim) && MemWindow(m, m', lo, lim)
    requires forall x {:trigger HeadOk(m', x, c'[x])} :: x in c' && lo <= x <= hi ==> HeadOk(m', x, c'[x])
    ensures HeadsOk(m', c')
  {
    forall x | x in c' ensures HeadOk(m', x, c'[x]) {
      if x < lo || hi < x {
        assert Outside(h, c', lo, hi, x);
        assert HeadOk(m, x, h.c[x]) && Sound(h.c, x);
        assert Apart(h.c, x, lo) && Apart(h.c, hi, x);
        if hi in h.c { assert Sound(h.c, hi); }
      }
    }
  }

  /** A change confined to a window is represented in memory if the tags inside
      the window are, and touches no word of a block in the program's hands. */
  lemma WindowRep(m: Mem, m': Mem, h: Heap, c': Arena, top': int, lo: int, hi: int, lim: int, heads: seq<int>)
    requires Inv(h) && Rep(m, h, heads) && Window(h, c', lo, hi)
    requires WindowLimit(h, lo, hi, lim) && MemWindow(m, m', lo, lim)
    requires forall x {:trigger HeadOk(m', x, c'[x])} :: x in c' && lo <= x <= hi ==> HeadOk(m', x, c'[x])
    ensures Rep(m', h.(c := c', top := top'), heads) && UserSame(h.live, m, m')
  {
    WindowHeads(m, m', h, c', lo, hi, lim);
    WindowBinLists(m, m', h, lo, hi, lim, c');
    WindowFastLists(m, m', h, lo, hi, lim, c', heads);
    WindowMapHeads(m, m', h, lo, hi, lim);
    WindowUserSame(m, m', h, c', lo, hi, lim);
    assert Sound(h.c, lo);
    assert Rd(m', BINS + 4) == Rd(m, BINS + 4);
  }
}
