/** The allocator of deva/malloc.c: one static malloc_state over raw memory. */
module Malloc {
  import opened Word32
  import opened MallocSizes
  import opened ChunkMemory
  import opened Chunks
  import opened HeapState
  import opened HeapLists
  import opened HeapSteps
  import opened HeapMerge
  import opened HeapGrow
  import opened HeapResize
  import opened HeapMaps
  import opened BinMap
  import opened HeapTheory
  import opened HeapSum
  import opened HeapUnique
  import opened HeapPolicy
  import opened Blocks
  import opened Alignment

  /** A non-empty bin has its bit set. */
  ghost predicate CoversBins(bins: seq<seq<int>>, b: seq<nat>) {
    forall i: nat {:trigger Marked(b, i)} :: 2 <= i < |bins| && bins[i] != [] ==> Marked(b, i)
  }

  /** What an allocation does to the set of blocks: nothing if it fails, else one
      aligned new block with room for nb - 4 bytes and no other change. */
  ghost predicate Granted(h: Heap, h': Heap, r: int, req: int, nb: int) {
    if r == 0 then h'.live == h.live && h'.mm == h.mm
    else
      && r % 8 == 0 && r >= LOW && r - 8 !in h.live && r - 8 in h'.live
      && h'.live == h.live[r - 8 := Block(req, h'.live[r - 8].end)]
      && r + nb - 4 <= h'.live[r - 8].end
      && (r - 8 !in h'.mm ==> h'.mm == h.mm && h'.live[r - 8].end < r + nb + 12)
      && (r - 8 in h'.mm ==> r - 8 !in h.mm && h'.mm == h.mm[r - 8 := h'.mm[r - 8]] && h'.mm[r - 8].base == r - 8)
  }

  lemma GrantedSince(h0: Heap, h1: Heap, h2: Heap, r: int, req: int, nb: int)
    requires h1.live == h0.live && h1.mm == h0.mm && Granted(h1, h2, r, req, nb)
    ensures Granted(h0, h2, r, req, nb)
  {
  }

  /** A request of req bytes failed: it is out of range, or nothing in the heap
      could serve it and the system gave nothing. */
  ghost predicate NoSpace(h: Heap, mid: Heap, os: map<int, int>, answers: seq<int>, nMmaps: int, req: int) {
    RequestOutOfRange(req) || Exhausted(h, mid, os, answers, nMmaps, Request2Size(req))
  }

  /** The bytes memalign asks malloc for. */
  function MemalignRequest(alignment: nat, bytes: int): int {
    if alignment <= 8 then bytes else Request2Size(bytes) + Rounded(alignment) + MINSIZE
  }

  /** What realloc does to the set of blocks and to their bytes: nothing if it
      fails; else block oldp becomes block r - 8 with the same leading words,
      and no other block changes. */
  ghost predicate Resized(h: Heap, h': Heap, m: Mem, m': Mem, oldp: int, r: int, bytes: int)
    requires oldp in h.live
  {
    if r == 0 then h'.live == h.live && UserSame(h.live, m, m')
    else
      && r % 8 == 0 && r >= LOW && (r - 8 == oldp || r - 8 !in h.live) && r - 8 in h'.live
      && h'.live == (h.live - {oldp})[r - 8 := Block(bytes, h'.live[r - 8].end)]
      && r + bytes <= h'.live[r - 8].end
      && UserSame(h.live - {oldp}, m, m')
      && forall k {:trigger Rd(m', r + k)} :: 0 <= k < bytes && k % 4 == 0 && oldp + 8 + k < h.live[oldp].end ==>
           Rd(m', r + k) == Rd(m, oldp + 8 + k)
  }

  /** What memalign does to the set of blocks: nothing if it fails, else one new
      block on an address that is a multiple of a, with room for nb - 4 bytes. */
  ghost predicate AlignedGrant(h: Heap, h': Heap, r: nat, a: nat, req: int, nb: int) {
    if r == 0 then h'.live == h.live
    else
      && Multiple(r, a) && r % 8 == 0 && r >= LOW && r - 8 !in h.live && r - 8 in h'.live
      && h'.live == h.live[r - 8 := Block(req, h'.live[r - 8].end)]
      && r + nb - 4 <= h'.live[r - 8].end
      && (r - 8 !in h'.mm ==> h'.live[r - 8].end <= r + nb + 12)
  }

  class Allocator {
    var m: Mem
    /** max_fast, with ANYCHUNKS_BIT (1) and FASTCHUNKS_BIT (2) in its low bits. */
    var maxFast: int
    var fastbins: seq<int>
    var top: int
    var lastRemainder: int
    var binmap: seq<nat>
    var nMmaps: int
    var mmappedMem: int
    var sbrkedMem: int
    /** Areas the system has mapped for us, and its answers to future mmap calls. */
    var os: map<int, int>
    var answers: seq<int>
    ghost var h: Heap

    predicate HaveAny()
      reads this
    {
      maxFast % 2 == 1
    }

    predicate HaveFast()
      reads this
    {
      maxFast / 2 % 2 == 1
    }

    /** The structures agree with the abstract heap, given the fastbin heads. */
    ghost predicate Good(heads: seq<int>)
      reads this
    {
      && Inv(h) && Rep(m, h, heads)
      && top == h.top && os == h.os
      && MapOk(binmap) && CoversBins(h.bins, binmap)
      && sbrkedMem == Total(h.c)
    }

    // ----- list surgery -----

    /** unlink(P, BK, FD) */
    method Unlink(p: int, ghost heads: seq<int>, ghost b: nat, ghost k: nat)
      requires Good(heads) && 1 <= b < NBINS && k < |h.bins[b]| && h.bins[b][k] == p
      modifies `m, `h
      ensures p in old(h).c && h == Detach(old(h), b, k)
      ensures Good(heads) && UserSame(old(h).live, old(m), m) && FreeTotal(h.c) == FreeTotal(old(h).c) &&
        EndsKept(old(h), h)
    {
      InBin(h, b, k);
      DetachInv(h, b, k);
      RetagEnds(h, Detach(h, b, k), p, Free(0));
      RetagSums(h.c, p, Free(0));
      DetachRep(m, h, heads, b, k);
      var fd, bk := Fd(m, p), Bk(m, p);
      m := m[fd + 12 := bk];
      m := m[bk + 8 := fd];
      h := Detach(h, b, k);
    }

    /** Link p between bck and fwd, the neighbours of position k in bin b. */
    method LinkIn(p: int, bck: int, fwd: int, ghost heads: seq<int>, ghost b: nat, ghost k: nat)
      requires Good(heads) && Attachable(h, p, b, k)
      requires bck == At(BinAt(b), h.bins[b], k - 1) && fwd == At(BinAt(b), h.bins[b], k)
      requires b >= 2 ==> Marked(binmap, b)
      modifies `m, `h
      ensures h == Attach(old(h), p, b, k)
      ensures Good(heads) && UserSame(old(h).live, old(m), m) && FreeTotal(h.c) == FreeTotal(old(h).c) &&
        EndsKept(old(h), h)
    {
      AttachInv(h, p, b, k);
      RetagEnds(h, Attach(h, p, b, k), p, Free(b));
      RetagSums(h.c, p, Free(b));
      AttachRep(m, h, heads, p, b, k);
      LinkOrder(m, h, p, b, k);
      m := m[p + 12 := bck];
      m := m[p + 8 := fwd];
      m := m[fwd + 12 := p];
      m := m[bck + 8 := p];
      h := Attach(h, p, b, k);
    }

    /** unlink for a chunk whose bin the source need not know. */
    method UnlinkFree(p: int, ghost heads: seq<int>, ghost xs: set<int>)
      requires Good(heads) && p in h.c && h.c[p].kind.Free? && h.c[p].kind.bin > 0 && StableBut(h, xs)
      modifies `m, `h
      ensures p in old(h).c && h == old(h).(c := Retag(old(h).c, p, Free(0)), bins := h.bins)
      ensures Good(heads) && UserSame(old(h).live, old(m), m) && StableBut(h, xs + {p})
      ensures FreeTotal(h.c) == FreeTotal(old(h).c) && EndsKept(old(h), h)
    {
      ghost var k := BinPosition(h, p);
      Unlink(p, heads, h.c[p].kind.bin, k);
      RetagStable(old(h), h, p, Free(0), xs);
    }

    /** Put a detached free chunk at the front of the unsorted queue. */
    method LinkUnsorted(p: int, ghost heads: seq<int>, ghost xs: set<int>)
      requires Good(heads) && p in h.c && h.c[p].kind == Free(0) && StableBut(h, xs + {p}) && p !in xs
      modifies `m, `h
      ensures p in old(h).c && h == Attach(old(h), p, 1, 0)
      ensures Good(heads) && UserSame(old(h).live, old(m), m) && StableBut(h, xs)
      ensures FreeTotal(h.c) == FreeTotal(old(h).c) && EndsKept(old(h), h)
    {
      FreeNotLive(h, p);
      BinEnds(m, h, heads, 1);
      var bck := BinAt(1);
      var fwd := Fd(m, bck);
      LinkIn(p, bck, fwd, heads, 1, 0);
      RetagStable(old(h), h, p, Free(1), xs + {p});
      assert xs + {p} - {p} == xs;
    }

    // ----- coalescing, shared by free and malloc_consolidate -----

    /** Consolidate backward: take a free predecessor off its bin. */
    method DetachPrevious(p0: int, ghost heads: seq<int>) returns (p: int, size: int)
      requires Good(heads) && Loose(h, p0) && h.c[p0].kind.Used? && StableBut(h, {p0})
      modifies `m, `h
      ensures Good(heads) && UserSame(old(h).live, old(m), m)
      ensures h == old(h).(c := h.c, bins := h.bins) && Loose(h, p0) && h.c[p0] == old(h).c[p0]
      ensures p == Start(h.c, p0) && size == Next(h.c, p0) - p && p in h.c && StableBut(h, {p0, p})
      ensures h.c[p0].psize != 0 ==> h.c[p].kind == Free(0)
      ensures h.c == (if old(h).c[p0].psize != 0 && p in old(h).c then Retag(old(h).c, p, Free(0)) else old(h).c)
      ensures FreeTotal(h.c) == FreeTotal(old(h).c) && EndsKept(old(h), h)
    {
      p, size := p0, ChunkSize(m, p0);
      TagsRead(m, h.c, p0);
      assert Sound(h.c, p0);
      if !PrevInuse(m, p0) {
        var prevsize := Foot(m, p0);
        size := size + prevsize;
        p := p0 - prevsize;
        assert Settled(h, p);
        UnlinkFree(p, heads, {p0});
      }
    }

    /** Consolidate forward: take a free successor off its bin. */
    method DetachNext(ghost p0: int, next: int, nextsize: int, ghost heads: seq<int>, ghost xs: set<int>)
      returns (inuse: bool)
      requires Good(heads) && Loose(h, p0) && h.c[p0].kind.Used? && StableBut(h, xs) && next !in xs
      requires next == Next(h.c, p0) && next in h.c && next != top && nextsize == ChunkSize(m, next)
      modifies `m, `h
      ensures Good(heads) && UserSame(old(h).live, old(m), m)
      ensures h == old(h).(c := h.c, bins := h.bins) && Loose(h, p0) && h.c[p0] == old(h).c[p0]
      ensures next in h.c && inuse == !h.c[next].kind.Free? && ChunkSize(m, next) == nextsize
      ensures !inuse ==> h.c[next].kind == Free(0) && nextsize == h.c[next].size
      ensures StableBut(h, xs + {next}) && (inuse ==> StableBut(h, xs))
      ensures next in old(h).c && h.c == if inuse then old(h).c else Retag(old(h).c, next, Free(0))
      ensures FreeTotal(h.c) == FreeTotal(old(h).c) && EndsKept(old(h), h)
    {
      assert OnlyTop(h, next);
      InuseBit(m, h, next);
      TagsRead(m, h.c, next);
      inuse := PrevInuse(m, next + nextsize);
      if !inuse {
        assert Settled(h, next);
        UnlinkFree(next, heads, xs);
        TagsRead(m, h.c, next);
      }
    }

    /** set_head(nextchunk, nextsize), set_head(p, size | PREV_INUSE), set_foot(p, size) */
    method WriteFreeTags(p: int, size: int, next: int, nextsize: int)
      requires nextsize == ChunkSize(m, next)
      modifies `m
      ensures m == ReleaseWrites(old(m), next, p, size)
    {
      m := m[next + 4 := nextsize];
      m := m[p + 4 := size + 1];
      m := m[p + size := size];
    }

    /** Write the tags of the merged chunk. */
    method WriteMergedTags(ghost p0: int, p: int, size: int, next: int, nextsize: int, ghost heads: seq<int>)
      requires Good(heads) && Releasable(h, p0) && !h.c[Next(h.c, p0)].kind.Top?
      requires p == Start(h.c, p0) && size == Stop(h.c, p0) - p && next == Next(h.c, p0) &&
        nextsize == ChunkSize(m, next)
      requires StableBut(h, {p0, p} + (if h.c[next].kind.Free? then {next} else {}))
      modifies `m, `h
      ensures Good(heads) && UserSame(old(h).live, old(m), m)
      ensures p in h.c && h.c[p].kind == Free(0) && StableBut(h, {p})
      ensures h == old(h).(c := h.c)
      ensures FreeTotal(h.c) == FreeTotal(old(h).c) + old(h).c[p0].size && EndsKept(old(h), h)
    {
      ReleaseAll(m, h, heads, p0);
      WriteFreeTags(p, size, next, nextsize);
      h := ReleaseStep(h, p0);
    }

    /** ... and queue it in the unsorted bin. */
    method ReleaseAndQueue(ghost p0: int, p: int, size: int, next: int, nextsize: int, ghost heads: seq<int>)
      requires Good(heads) && Releasable(h, p0) && !h.c[Next(h.c, p0)].kind.Top?
      requires p == Start(h.c, p0) && size == Stop(h.c, p0) - p && next == Next(h.c, p0) &&
        nextsize == ChunkSize(m, next)
      requires StableBut(h, {p0, p} + (if h.c[next].kind.Free? then {next} else {}))
      modifies `m, `h
      ensures Good(heads) && UserSame(old(h).live, old(m), m) && StableBut(h, {})
      ensures h == old(h).(c := h.c, bins := h.bins)
      ensures FreeTotal(h.c) == FreeTotal(old(h).c) + old(h).c[p0].size && EndsKept(old(h), h)
    {
      WriteMergedTags(p0, p, size, next, nextsize, heads);
      assert {} + {p} == {p};
      LinkUnsorted(p, heads, {});
    }

    /** Merge into top. */
    method ReleaseIntoTop(ghost p0: int, p: int, size: int, ghost heads: seq<int>)
      requires Good(heads) && BordersTop(h, p0)
      requires p == Start(h.c, p0) && size == Next(h.c, top) - p
      requires StableBut(h, {p0, p})
      modifies `m, `h, `top
      ensures Good(heads) && UserSame(old(h).live, old(m), m) && StableBut(h, {})
      ensures h == old(h).(c := h.c, top := h.top)
      ensures FreeTotal(h.c) == FreeTotal(old(h).c) + old(h).c[p0].size && EndsKept(old(h), h)
    {
      ReleaseTopShape(h, p0);
      ReleaseTopSums(h, p0, ReleaseTopStep(h, p0).c);
      ReleaseTopInv(h, p0);
      ReleaseTopRep(m, h, heads, p0);
      ReleaseTopStable(h, ReleaseTopStep(h, p0).c, p0);
      ReleaseTopEnds(h, ReleaseTopStep(h, p0).c, p0);
      m := m[p + 4 := size + 1];
      top := p;
      h := ReleaseTopStep(h, p0);
    }

    /** The successor is not top: merge with it if it is free, then queue. */
    method CoalesceForward(ghost p0: int, p: int, size0: int, next: int, nextsize: int, ghost heads: seq<int>)
      returns (size: int)
      requires Good(heads) && Loose(h, p0) && h.c[p0].kind.Used? && StableBut(h, {p0, p})
      requires p == Start(h.c, p0) && p in h.c && size0 == Next(h.c, p0) - p
      requires h.c[p0].psize != 0 ==> h.c[p].kind == Free(0)
      requires next == Next(h.c, p0) && next in h.c && next != top && nextsize == ChunkSize(m, next)
      requires p <= p0 < next
      modifies `m, `h
      ensures Good(heads) && UserSame(old(h).live, old(m), m) && StableBut(h, {})
      ensures h == old(h).(c := h.c, bins := h.bins)
      ensures FreeTotal(h.c) == FreeTotal(old(h).c) + old(h).c[p0].size && EndsKept(old(h), h)
    {
      size := size0;
      var nextinuse := DetachNext(p0, next, nextsize, heads, {p0, p});
      if !nextinuse {
        size := size + nextsize;
      }
      assert OnlyTop(h, next);
      ReleaseAndQueue(p0, p, size, next, nextsize, heads);
    }

    /** Merge a used chunk nobody owns with its free neighbours and with top,
        and queue the result unless it became top. Returns the merged size. */
    method Coalesce(p0: int, ghost heads: seq<int>) returns (size: int)
      requires Good(heads) && Loose(h, p0) && h.c[p0].kind.Used? && StableBut(h, {p0})
      modifies `m, `h, `top
      ensures Good(heads) && UserSame(old(h).live, old(m), m) && StableBut(h, {})
      ensures h == old(h).(c := h.c, bins := h.bins, top := h.top)
      ensures FreeTotal(h.c) == FreeTotal(old(h).c) + old(h).c[p0].size && EndsKept(old(h), h)
    {
      var next := p0 + ChunkSize(m, p0);
      TagsRead(m, h.c, p0);
      assert Sound(h.c, p0);
      var nextsize := ChunkSize(m, next);
      TagsRead(m, h.c, next);
      var p: int;
      p, size := DetachPrevious(p0, heads);
      TagsRead(m, h.c, next);
      if next != top {
        size := CoalesceForward(p0, p, size, next, nextsize, heads);
      } else {
        size := size + nextsize;
        ReleaseIntoTop(p0, p, size, heads);
      }
    }

    // ----- malloc_consolidate -----

    /** Initialized, and the flags cover the lists; only the chunks xs are in limbo. */
    ghost predicate ReadyBut(xs: set<int>)
      reads this
    {
      && Good(fastbins) && StableBut(h, xs)
      && MAX_FAST <= maxFast <= MAX_FAST + 3
      && (HaveFast() ==> HaveAny())
      && (!HaveFast() ==> forall i :: 0 <= i < |h.fast| ==> h.fast[i] == [])
      && (!HaveAny() ==> forall i :: 0 <= i < |h.bins| ==> h.bins[i] == [])
    }

    ghost predicate Ready()
      reads this
    {
      ReadyBut({})
    }

    /** Take the chunks of one fastbin off, oldest last, and coalesce each. */
    method DrainFastbin(fb: nat, p0: int)
      requires fb < NFASTBINS && fb < |fastbins| && fastbins[fb] == 0 && Good(fastbins[fb := p0]) && StableBut(h, {})
      modifies `m, `h, `top
      ensures Good(fastbins) && StableBut(h, {}) && UserSame(old(h).live, old(m), m)
      ensures h == old(h).(c := h.c, bins := h.bins, top := h.top, fast := old(h).fast[fb := []])
      ensures FreeTotal(h.c) == FreeTotal(old(h).c) && EndsKept(old(h), h)
    {
      var p := p0;
      FastHead(m, h, fastbins[fb := p], fb);
      while p != 0
        invariant Good(fastbins[fb := p]) && StableBut(h, {}) && UserSame(old(h).live, old(m), m)
        invariant fb < |h.fast| &&
          h == old(h).(c := h.c, bins := h.bins, top := h.top, fast := old(h).fast[fb := h.fast[fb]])
        invariant p == 0 <==> h.fast[fb] == []
        invariant FreeTotal(h.c) == FreeTotal(old(h).c) && EndsKept(old(h), h)
        decreases |h.fast[fb]|
      {
        ghost var heads := fastbins[fb := p];
        FastPopAll(m, h, heads, fb, {});
        var nextp := Fd(m, p);
        h := FastPop(h, fb);
        assert heads[fb := nextp] == fastbins[fb := nextp];
        var size := Coalesce(p, fastbins[fb := nextp]);
        p := nextp;
        FastHead(m, h, fastbins[fb := p], fb);
      }
      assert fastbins[fb := p] == fastbins;
    }

    /** Empty every fastbin into the unsorted queue and top: nothing is lost,
        no free chunk borders another, and the flag is cleared. */
    method Consolidate()
      requires Ready()
      modifies `m, `h, `top, `fastbins, `maxFast
      ensures Ready() && !HaveFast() && HaveAny() == old(HaveAny())
      ensures UserSame(old(h).live, old(m), m)
      ensures h == old(h).(c := h.c, bins := h.bins, top := h.top, fast := h.fast)
      ensures forall i :: 0 <= i < |h.fast| ==> h.fast[i] == []
      ensures FreeTotal(h.c) == FreeTotal(old(h).c) && EndsKept(old(h), h)
    {
      maxFast := if HaveFast() then maxFast - 2 else maxFast;
      assert maxFast % 2 == old(maxFast) % 2 && maxFast / 2 % 2 == 0;
      DrainAll(FastbinIndex(maxFast));
    }

    /** Drain the fastbins up to number maxfb, the last that is in use. */
    method DrainAll(maxfb: int)
      requires Good(fastbins) && StableBut(h, {}) && maxfb == 7
      requires !HaveAny() ==> forall i :: 0 <= i < |h.fast| ==> h.fast[i] == []
      modifies `m, `h, `top, `fastbins
      ensures Good(fastbins) && StableBut(h, {}) && UserSame(old(h).live, old(m), m)
      ensures h == old(h).(c := h.c, bins := h.bins, top := h.top, fast := h.fast)
      ensures forall i :: 0 <= i < |h.fast| ==> h.fast[i] == []
      ensures FreeTotal(h.c) == FreeTotal(old(h).c) && EndsKept(old(h), h) && (!HaveAny() ==> h == old(h))
    {
      var fb := 0;
      while fb <= maxfb
        invariant 0 <= fb <= 8
        invariant Good(fastbins) && StableBut(h, {}) && UserSame(old(h).live, old(m), m)
        invariant h == old(h).(c := h.c, bins := h.bins, top := h.top, fast := h.fast)
        invariant |h.fast| == NFASTBINS && forall i :: 0 <= i < fb ==> h.fast[i] == []
        invariant FreeTotal(h.c) == FreeTotal(old(h).c) && EndsKept(old(h), h) && (!HaveAny() ==> h == old(h))
      {
        FastHead(m, h, fastbins, fb);
        var p := fastbins[fb];
        if p != 0 {
          assert fastbins[fb := 0][fb := p] == fastbins;
          fastbins := fastbins[fb := 0];
          DrainFastbin(fb, p);
        }
        fb := fb + 1;
      }
      forall i | 0 <= i < |h.fast| ensures h.fast[i] == [] {
        if i >= 8 { HighFastbinsEmpty(h, i); }
      }
    }

    // ----- free -----

    /** Place a small chunk on its fastbin. */
    method QueueFast(p: int, size: int)
      requires ReadyBut({p}) && Loose(h, p) && h.c[p].kind.Used? && size == h.c[p].size <= MAX_FAST
      modifies `m, `h, `fastbins, `maxFast
      ensures Ready() && UserSame(old(h).live, old(m), m)
      ensures h == old(h).(c := h.c, fast := h.fast)
      ensures FreeTotal(h.c) == FreeTotal(old(h).c) + old(h).c[p].size && EndsKept(old(h), h)
    {
      maxFast := maxFast - maxFast % 4 + 3;
      PushFast(p, size);
    }

    method PushFast(p: int, size: int)
      requires Good(fastbins) && StableBut(h, {p}) && Loose(h, p) && h.c[p].kind.Used? &&
        size == h.c[p].size <= MAX_FAST
      modifies `m, `h, `fastbins
      ensures Good(fastbins) && StableBut(h, {}) && UserSame(old(h).live, old(m), m)
      ensures h == old(h).(c := h.c, fast := h.fast)
      ensures FreeTotal(h.c) == FreeTotal(old(h).c) + old(h).c[p].size && EndsKept(old(h), h)
    {
      FastPushAll(m, h, fastbins, p);
      var i := FastbinIndex(size);
      m := m[p + 8 := fastbins[i]];
      fastbins := fastbins[i := p];
      h := FastPush(h, p);
    }

    /** Consolidate a larger chunk as it arrives. */
    method FreeLarge(p: int)
      requires ReadyBut({p}) && Loose(h, p) && h.c[p].kind.Used?
      modifies `m, `h, `top, `fastbins, `maxFast
      ensures Ready() && UserSame(old(h).live, old(m), m)
      ensures h == old(h).(c := h.c, bins := h.bins, top := h.top, fast := h.fast)
      ensures FreeTotal(h.c) == FreeTotal(old(h).c) + old(h).c[p].size && EndsKept(old(h), h)
    {
      SetAnyChunks(p);
      var size := Coalesce(p, fastbins);
      if size >= 0x20000 {
        ConsolidateFast();
      }
    }

    /** set_anychunks */
    method SetAnyChunks(ghost p: int)
      requires ReadyBut({p})
      modifies `maxFast
      ensures ReadyBut({p}) && HaveAny() && HaveFast() == old(HaveFast())
    {
      maxFast := if HaveAny() then maxFast else maxFast + 1;
    }

    method ConsolidateFast()
      requires Ready()
      modifies `m, `h, `top, `fastbins, `maxFast
      ensures Ready() && UserSame(old(h).live, old(m), m)
      ensures h == old(h).(c := h.c, bins := h.bins, top := h.top, fast := h.fast)
      ensures FreeTotal(h.c) == FreeTotal(old(h).c) && EndsKept(old(h), h)
    {
      if HaveFast() {
        Consolidate();
      }
    }

    /** Free a used chunk of the arena that nobody owns any more. */
    method FreeChunk(p: int)
      requires ReadyBut({p}) && Loose(h, p) && h.c[p].kind.Used?
      modifies `m, `h, `top, `fastbins, `maxFast
      ensures Ready() && UserSame(old(h).live, old(m), m)
      ensures h == old(h).(c := h.c, bins := h.bins, top := h.top, fast := h.fast)
      ensures FreeTotal(h.c) == FreeTotal(old(h).c) + old(h).c[p].size && EndsKept(old(h), h)
    {
      TagsRead(m, h.c, p);
      assert Sound(h.c, p);
      var size := ChunkSize(m, p);
      if size <= maxFast {
        QueueFast(p, size);
      } else {
        FreeLarge(p);
      }
    }

    // ----- taking chunks -----

    /** set_inuse_bit_at_offset(p, size) for a chunk just taken off a bin. */
    method TakeWhole(p: int, size: int)
      requires Good(fastbins) && p in h.c && h.c[p].kind == Free(0) && size == h.c[p].size && StableBut(h, {p})
      modifies `m, `h
      ensures Good(fastbins) && UserSame(old(h).live, old(m), m) && StableBut(h, {p})
      ensures h == old(h).(c := h.c) && p in h.c && h.c[p].kind.Used? && h.c[p].size == size && p !in h.live
      ensures FreeTotal(h.c) == FreeTotal(old(h).c) - size
    {
      TakeAll(m, h, fastbins, p);
      var n := p + size;
      m := m[n + 4 := WithPrevInuse(Head(m, n))];
      h := TakeStep(h, p);
    }

    /** Tags of a split: the front is used, the rest stays detached. */
    method WriteSplitTags(p: int, nb: int, size: int) returns (r: int)
      requires Good(fastbins) && p in h.c && h.c[p].kind == Free(0) && size == h.c[p].size && StableBut(h, {p})
      requires nb % 8 == 0 && MINSIZE <= nb && nb + MINSIZE <= size
      modifies `m, `h
      ensures Good(fastbins) && UserSame(old(h).live, old(m), m) && StableBut(h, {p, r})
      ensures h == old(h).(c := h.c) && r == p + nb && r in h.c && h.c[r].kind == Free(0)
      ensures p in h.c && h.c[p].kind.Used? && h.c[p].size == nb && p !in h.live
      ensures FreeTotal(h.c) == FreeTotal(old(h).c) - nb
    {
      SplitAll(m, h, fastbins, p, nb);
      var rest := size - nb;
      r := p + nb;
      m := m[p + 4 := nb + 1];
      m := m[r + 4 := rest + 1];
      m := m[r + rest := rest];
      h := SplitStep(h, p, nb);
    }

    /** Split a chunk just taken off a bin; the remainder becomes the whole
        unsorted queue, which is empty at this point. */
    method SplitChunk(p: int, nb: int, size: int) returns (r: int)
      requires Good(fastbins) && p in h.c && h.c[p].kind == Free(0) && size == h.c[p].size && StableBut(h, {p})
      requires nb % 8 == 0 && MINSIZE <= nb && nb + MINSIZE <= size && h.bins[1] == []
      modifies `m, `h
      ensures Good(fastbins) && UserSame(old(h).live, old(m), m) && StableBut(h, {p})
      ensures h == old(h).(c := h.c, bins := old(h).bins[1 := [r]])
      ensures r == p + nb && p in h.c && h.c[p].kind.Used? && h.c[p].size == nb && p !in h.live
      ensures FreeTotal(h.c) == FreeTotal(old(h).c) - nb
    {
      r := WriteSplitTags(p, nb, size);
      assert {p} + {r} == {p, r};
      assert With(h.bins[1], 0, r) == [r];
      LinkUnsorted(r, fastbins, {p});
    }

    // ----- binning -----

    /** Take the last chunk off a bin: bin->bk = bck, bck->fd = bin. */
    method UnlinkLast(b: nat) returns (p: int)
      requires Good(fastbins) && 1 <= b < NBINS && h.bins[b] != [] && StableBut(h, {})
      modifies `m, `h
      ensures p == old(h).bins[b][|old(h).bins[b]| - 1] && p in old(h).c && h == Detach(old(h), b, |old(h).bins[b]| - 1)
      ensures Good(fastbins) && UserSame(old(h).live, old(m), m) && StableBut(h, {p})
      ensures FreeTotal(h.c) == FreeTotal(old(h).c)
    {
      BinEnds(m, h, fastbins, b);
      p := Bk(m, BinAt(b));
      BinEntry(m, h, fastbins, b, |h.bins[b]| - 1);
      Unlink(p, fastbins, b, |h.bins[b]| - 1);
      RetagStable(old(h), h, p, Free(0), {});
      assert {} + {p} == {p};
    }

    /** Where a large chunk goes in its sorted bin: after the larger ones. */
    method FindPlace(size: int, idx: nat) returns (bck: int, fwd: int, ghost k: nat)
      requires Good(fastbins) && 2 <= idx < NBINS
      ensures k <= |h.bins[idx]| && bck == At(BinAt(idx), h.bins[idx], k - 1) && fwd == At(BinAt(idx), h.bins[idx], k)
      ensures forall j :: 0 <= j < k && h.bins[idx][j] in h.c ==> h.c[h.bins[idx][j]].size >= size
      ensures forall j :: k <= j < |h.bins[idx]| && h.bins[idx][j] in h.c ==> h.c[h.bins[idx][j]].size <= size
    {
      ghost var s := h.bins[idx];
      BinEnds(m, h, fastbins, idx);
      bck := BinAt(idx);
      fwd := Fd(m, bck);
      k := 0;
      if s != [] { BinEntry(m, h, fastbins, idx, 0); BinEntry(m, h, fastbins, idx, |s| - 1); }
      if fwd != bck {
        if size < Head(m, Bk(m, bck)) {
          fwd := bck;
          bck := Bk(m, bck);
          k := |s|;
          forall j | 0 <= j < |s| ensures s[j] in h.c && h.c[s[j]].size >= size { BinIsSorted(h, idx, j, |s| - 1); }
        } else {
          var sz := size + 1;
          while sz < Head(m, fwd)
            invariant k < |s| && fwd == s[k] && s[k] in h.c && Head(m, fwd) == h.c[fwd].size + 1
            invariant forall j :: 0 <= j < k && s[j] in h.c ==> h.c[s[j]].size >= size
            decreases |s| - k
          {
            BinEntry(m, h, fastbins, idx, k);
            fwd := Fd(m, fwd);
            k := k + 1;
            BinEntry(m, h, fastbins, idx, k);
          }
          BinEntry(m, h, fastbins, idx, k);
          bck := Bk(m, fwd);
          forall j | k <= j < |s| ensures s[j] in h.c && h.c[s[j]].size <= size { BinIsSorted(h, idx, k, j); }
        }
      }
    }

    /** The bin of a detached chunk's size, and its place there. */
    method ChoosePlace(victim: int, size: int) returns (idx: nat, bck: int, fwd: int, ghost k: nat)
      requires Good(fastbins) && victim in h.c && h.c[victim].kind == Free(0) && size == h.c[victim].size
      ensures size >= 0 && 2 <= BinIndex(size) < NBINS && idx == BinIndex(size) && Attachable(h, victim, idx, k)
      ensures bck == At(BinAt(idx), h.bins[idx], k - 1) && fwd == At(BinAt(idx), h.bins[idx], k)
    {
      assert Sound(h.c, victim);
      FreeNotLive(h, victim);
      BinIndexRange(size);
      k := 0;
      if InSmallbinRange(size) {
        idx := SmallbinIndex(size);
        bck := BinAt(idx);
        fwd := Fd(m, bck);
        SmallPlace(m, h, fastbins, idx, size);
      } else {
        idx := LargebinIndex(size);
        bck, fwd, k := FindPlace(size, idx);
      }
    }

    /** Place a chunk taken off the unsorted queue in the bin of its size. */
    method PlaceInBin(victim: int, size: int)
      requires Good(fastbins) && victim in h.c && h.c[victim].kind == Free(0) && size == h.c[victim].size
      requires StableBut(h, {victim})
      modifies `m, `h, `binmap
      ensures Good(fastbins) && UserSame(old(h).live, old(m), m) && StableBut(h, {})
      ensures size >= 0 && 2 <= BinIndex(size) < NBINS
      ensures victim in old(h).c && h == old(h).(c := Retag(old(h).c, victim, Free(BinIndex(size))), bins := h.bins)
      ensures h.bins == old(h).bins[BinIndex(size) := h.bins[BinIndex(size)]]
      ensures FreeTotal(h.c) == FreeTotal(old(h).c)
    {
      var idx, bck, fwd, k := ChoosePlace(victim, size);
      MarkCovers(h.bins, binmap, idx);
      binmap := Mark(binmap, idx);
      LinkIn(victim, bck, fwd, fastbins, idx, k);
      RetagStable(old(h), h, victim, Free(idx), {victim});
      assert {victim} - {victim} == {};
    }

    /** A fastbin hit: the most recently freed chunk of exactly this size. */
    method TryFastbin(nb: int) returns (p: int)
      requires Ready() && nb % 8 == 0 && MINSIZE <= nb
      modifies `h, `fastbins
      ensures p == 0 ==> h == old(h) && fastbins == old(fastbins) && Ready() && NoFastHit(h.c, nb)
      ensures p != 0 ==> ReadyBut({p}) && p in old(h).c && old(h).c[p].kind.Fast?
      ensures p != 0 ==> h == old(h).(c := Retag(old(h).c, p, Used), fast := h.fast)
      ensures p != 0 ==> p in h.c && h.c[p].kind.Used? && h.c[p].size == nb && p !in h.live
    {
      p := 0;
      if nb <= maxFast {
        var i := FastbinIndex(nb);
        FastHead(m, h, fastbins, i);
        var victim := fastbins[i];
        if victim != 0 {
          FastPopAll(m, h, fastbins, i, {});
          fastbins := fastbins[i := Fd(m, victim)];
          h := FastPop(h, i);
          assert {} + {victim} == {victim};
          p := victim;
        }
      }
      if p == 0 { FastMiss(h, nb); }
    }

    /** An exact fit in a small bin. */
    method TrySmallbin(nb: int) returns (p: int)
      requires Ready() && nb % 8 == 0 && MINSIZE <= nb && InSmallbinRange(nb)
      modifies `m, `h
      ensures UserSame(old(h).live, old(m), m)
      ensures p == 0 ==>
        h == old(h) && m == old(m) && Ready() && SmallbinIndex(nb) < |h.bins| && h.bins[SmallbinIndex(nb)] == []
      ensures p != 0 ==> ReadyBut({p}) && BestFit(old(h).c, p, nb)
      ensures p != 0 ==> h == old(h).(c := h.c, bins := h.bins)
      ensures p != 0 ==> p in h.c && h.c[p].kind.Used? && h.c[p].size == nb && p !in h.live
    {
      var idx := SmallbinIndex(nb);
      BinEnds(m, h, fastbins, idx);
      if Bk(m, BinAt(idx)) != BinAt(idx) {
        SmallBinSize(h, idx, |h.bins[idx]| - 1);
        BinEntry(m, h, fastbins, idx, |h.bins[idx]| - 1);
        p := UnlinkLast(idx);
        assert Sound(h.c, p);
        TakeWhole(p, nb);
      } else {
        p := 0;
      }
    }

    /** Split the most recent remainder, the only chunk in the unsorted queue. */
    method SplitLastRemainder(nb: int, size: int) returns (p: int)
      requires Ready() && nb % 8 == 0 && MINSIZE <= nb
      requires |h.bins[1]| == 1 && h.bins[1][0] in h.c && h.c[h.bins[1][0]].size == size && size > nb + MINSIZE
      modifies `m, `h, `lastRemainder
      ensures UserSame(old(h).live, old(m), m) && ReadyBut({p})
      ensures h == old(h).(c := h.c, bins := h.bins) && p == old(h).bins[1][0] && p != 0 && lastRemainder == p + nb
      ensures p in h.c && h.c[p].kind.Used? && h.c[p].size == nb && p !in h.live
    {
      BinEntry(m, h, fastbins, 1, 0);
      assert Sound(h.c, h.bins[1][0]);
      p := UnlinkLast(1);
      var r := SplitChunk(p, nb, size);
      lastRemainder := r;
    }

    /** Process the unsorted queue: use an exact fit, or split the last
        remainder for a small request, else put every chunk in its bin. */
    method DrainUnsorted(nb: int) returns (p: int, ghost fromRemainder: bool)
      requires Ready() && nb % 8 == 0 && MINSIZE <= nb
      requires InSmallbinRange(nb) ==> h.bins[SmallbinIndex(nb)] == []
      modifies `m, `h, `binmap, `lastRemainder
      ensures UserSame(old(h).live, old(m), m) && h == old(h).(c := h.c, bins := h.bins)
      ensures p == 0 ==> Ready() && h.bins[1] == [] && SameShape(old(h).c, h.c) && lastRemainder == old(lastRemainder)
      ensures p == 0 && InSmallbinRange(nb) ==> h.bins[SmallbinIndex(nb)] == []
      ensures p != 0 ==> ReadyBut({p}) && p in h.c && h.c[p].kind.Used? && h.c[p].size == nb && p !in h.live
      ensures p != 0 && !fromRemainder ==> BestFit(old(h).c, p, nb)
      ensures p != 0 && fromRemainder ==> RemainderCase(old(h).c, old(lastRemainder), p, nb)
    {
      p, fromRemainder := 0, false;
      SameShapeRefl(h.c);
      BinEnds(m, h, fastbins, 1);
      while Bk(m, BinAt(1)) != BinAt(1)
        invariant Ready() && UserSame(old(h).live, old(m), m) && h == old(h).(c := h.c, bins := h.bins)
        invariant SameShape(old(h).c, h.c) && lastRemainder == old(lastRemainder)
        invariant InSmallbinRange(nb) ==> h.bins[SmallbinIndex(nb)] == []
        invariant Bk(m, BinAt(1)) == BinAt(1) <==> h.bins[1] == []
        decreases |h.bins[1]|
      {
        p, fromRemainder := ProcessLast(nb, old(h).c);
        if p != 0 { return; }
        BinEnds(m, h, fastbins, 1);
      }
    }

    /** One round: the last chunk of the queue serves the request or is filed. */
    method ProcessLast(nb: int, ghost c0: Arena) returns (p: int, ghost fromRemainder: bool)
      requires Ready() && nb % 8 == 0 && MINSIZE <= nb && SameShape(c0, h.c) && h.bins[1] != []
      requires InSmallbinRange(nb) ==> h.bins[SmallbinIndex(nb)] == []
      modifies `m, `h, `binmap, `lastRemainder
      ensures UserSame(old(h).live, old(m), m) && h == old(h).(c := h.c, bins := h.bins)
      ensures p == 0 ==> Ready() && SameShape(c0, h.c) && |h.bins[1]| == |old(h).bins[1]| - 1
      ensures p == 0 ==> lastRemainder == old(lastRemainder)
      ensures p == 0 && InSmallbinRange(nb) ==> h.bins[SmallbinIndex(nb)] == []
      ensures p != 0 ==> ReadyBut({p}) && p in h.c && h.c[p].kind.Used? && h.c[p].size == nb && p !in h.live
      ensures p != 0 && !fromRemainder ==> BestFit(c0, p, nb)
      ensures p != 0 && fromRemainder ==> RemainderCase(c0, old(lastRemainder), p, nb)
    {
      p, fromRemainder := 0, false;
      BinEnds(m, h, fastbins, 1);
      BinEntry(m, h, fastbins, 1, |h.bins[1]| - 1);
      AloneInQueue(m, h, fastbins);
      var victim := Bk(m, BinAt(1));
      var bck := Bk(m, victim);
      var size := ChunkSize(m, victim);
      if InSmallbinRange(nb) && bck == BinAt(1) && victim == lastRemainder && size > nb + MINSIZE {
        RemainderCaseHolds(h, c0, victim, nb);
        fromRemainder := true;
        p := SplitLastRemainder(nb, size);
      } else if size == nb {
        ExactIsBest(c0, h.c, victim, nb);
        p := ServeExact(nb);
      } else {
        BinLast(nb, size, c0);
      }
    }

    /** The last chunk of the queue fits exactly: take it. */
    method ServeExact(nb: int) returns (p: int)
      requires Ready() && MINSIZE <= nb && h.bins[1] != []
      requires h.bins[1][|h.bins[1]| - 1] in h.c && h.c[h.bins[1][|h.bins[1]| - 1]].size == nb
      modifies `m, `h
      ensures UserSame(old(h).live, old(m), m) && h == old(h).(c := h.c, bins := h.bins)
      ensures p == old(h).bins[1][|old(h).bins[1]| - 1] && p != 0
      ensures ReadyBut({p}) && p in h.c && h.c[p].kind.Used? && h.c[p].size == nb && p !in h.live
    {
      BinEntry(m, h, fastbins, 1, |h.bins[1]| - 1);
      assert Sound(h.c, h.bins[1][|h.bins[1]| - 1]);
      p := UnlinkLast(1);
      TakeWhole(p, nb);
    }

    /** Move the last chunk of the queue to the bin of its size. */
    method BinLast(nb: int, size: int, ghost c0: Arena)
      requires Ready() && nb % 8 == 0 && MINSIZE <= nb && size != nb && SameShape(c0, h.c)
      requires h.bins[1] != [] && h.bins[1][|h.bins[1]| - 1] in h.c && size == h.c[h.bins[1][|h.bins[1]| - 1]].size
      requires InSmallbinRange(nb) ==> h.bins[SmallbinIndex(nb)] == []
      modifies `m, `h, `binmap
      ensures UserSame(old(h).live, old(m), m) && h == old(h).(c := h.c, bins := h.bins)
      ensures Ready() && SameShape(c0, h.c) && |h.bins[1]| == |old(h).bins[1]| - 1
      ensures InSmallbinRange(nb) ==> h.bins[SmallbinIndex(nb)] == []
    {
      BinEntry(m, h, fastbins, 1, |h.bins[1]| - 1);
      var victim := UnlinkLast(1);
      ghost var c1 := h.c;
      PlaceInBin(victim, size);
      SameShapeMoved(c0, old(h).c, victim, c1, BinIndex(size));
      if InSmallbinRange(nb) { DifferentBin(nb, size); }
    }

    // ----- the search through the bins -----

    /** Serve nb bytes from the front of a chunk just taken off a bin: whole if
        the rest would be too small to stand alone, else split. */
    method Carve(p: int, nb: int, size: int) returns (r: int)
      requires Good(fastbins) && p in h.c && h.c[p].kind == Free(0) && size == h.c[p].size && StableBut(h, {p})
      requires nb % 8 == 0 && MINSIZE <= nb <= size && h.bins[1] == []
      modifies `m, `h
      ensures Good(fastbins) && UserSame(old(h).live, old(m), m) && StableBut(h, {p})
      ensures h == old(h).(c := h.c, bins := h.bins) && p != 0
      ensures p in h.c && h.c[p].kind.Used? && nb <= h.c[p].size < nb + MINSIZE && p !in h.live
      ensures r == 0 <==> size < nb + MINSIZE
      ensures r != 0 ==> r == p + nb && h.c[p].size == nb
    {
      assert Sound(h.c, p);
      if size - nb < MINSIZE {
        TakeWhole(p, size);
        r := 0;
      } else {
        r := SplitChunk(p, nb, size);
      }
    }

    /** Scan the request's own sorted bin from its small end. */
    method ScanBin(nb: int, idx: nat) returns (victim: int, ghost k: nat)
      requires Good(fastbins) && 2 <= idx < NBINS
      ensures k <= |h.bins[idx]| && victim == At(BinAt(idx), h.bins[idx], k - 1)
      ensures victim == BinAt(idx) <==> k == 0
      ensures k > 0 ==> victim in h.c && nb <= h.c[victim].size
      ensures forall j :: k <= j < |h.bins[idx]| && h.bins[idx][j] in h.c ==> h.c[h.bins[idx][j]].size < nb
    {
      ghost var s := h.bins[idx];
      BinEnds(m, h, fastbins, idx);
      k := |s|;
      victim := Bk(m, BinAt(idx));
      if k > 0 { BinEntry(m, h, fastbins, idx, k - 1); }
      while victim != BinAt(idx)
        invariant k <= |s| && victim == At(BinAt(idx), s, k - 1) && (victim == BinAt(idx) <==> k == 0)
        invariant k > 0 ==>
          victim in h.c && ChunkSize(m, victim) == h.c[victim].size && Bk(m, victim) == At(BinAt(idx), s, k - 2)
        invariant forall j :: k <= j < |s| && s[j] in h.c ==> h.c[s[j]].size < nb
        decreases k
      {
        if ChunkSize(m, victim) >= nb { return; }
        victim := Bk(m, victim);
        k := k - 1;
        if k > 0 { BinEntry(m, h, fastbins, idx, k - 1); }
      }
    }

    /** A large request takes the smallest chunk of its own bin that fits. */
    method TryOwnBin(nb: int, idx: nat) returns (p: int)
      requires Ready() && nb % 8 == 0 && MINSIZE <= nb && idx == BinIndex(nb) < NBINS && 2 <= idx && h.bins[1] == []
      modifies `m, `h
      ensures UserSame(old(h).live, old(m), m)
      ensures p == 0 ==> h == old(h) && m == old(m) && Ready()
      ensures p == 0 ==> forall q :: q in h.bins[idx] && q in h.c ==> h.c[q].size < nb
      ensures p != 0 ==> ReadyBut({p}) && BestFit(old(h).c, p, nb) && h == old(h).(c := h.c, bins := h.bins)
      ensures p != 0 ==> p in h.c && h.c[p].kind.Used? && nb <= h.c[p].size < nb + MINSIZE && p !in h.live
    {
      var victim;
      ghost var k;
      victim, k := ScanBin(nb, idx);
      if victim == BinAt(idx) {
        p := 0;
      } else {
        BinEntry(m, h, fastbins, idx, k - 1);
        FirstFitIsBest(h, nb, idx, k - 1);
        var size := ChunkSize(m, victim);
        Unlink(victim, fastbins, idx, k - 1);
        RetagStable(old(h), h, victim, Free(0), {});
        assert {} + {victim} == {victim};
        var r := Carve(victim, nb, size);
        p := victim;
      }
    }

    /** Search the larger bins through the bitmap. */
    method TryLargerBins(nb: int, idx: nat) returns (p: int)
      requires Ready() && nb % 8 == 0 && MINSIZE <= nb && idx == BinIndex(nb) < NBINS && 2 <= idx && h.bins[1] == []
      requires forall q :: q in h.bins[idx] && q in h.c ==> h.c[q].size < nb
      modifies `m, `h, `binmap, `lastRemainder
      ensures UserSame(old(h).live, old(m), m)
      ensures p == 0 ==>
        h == old(h) && m == old(m) && Ready() && NoneFits(h.c, nb) && lastRemainder == old(lastRemainder)
      ensures p != 0 ==> ReadyBut({p}) && BestFit(old(h).c, p, nb) && h == old(h).(c := h.c, bins := h.bins)
      ensures p != 0 ==> p in h.c && h.c[p].kind.Used? && nb <= h.c[p].size < nb + MINSIZE && p !in h.live
      ensures p != 0 ==>
        lastRemainder == if InSmallbinRange(nb) && nb + MINSIZE <= old(h).c[p].size then p + nb else old(lastRemainder)
    {
      var i := FindNonEmpty(idx);
      if i == NBINS {
        NoBinFits(h, nb, idx);
        p := 0;
      } else {
        LastIsBest(h, nb, idx, i);
        p := CarveLast(i, nb);
      }
    }

    /** Serve a request from the last chunk of a bin; a small request's
        remainder is advertised as the last remainder. */
    method CarveLast(i: nat, nb: int) returns (p: int)
      requires Ready() && nb % 8 == 0 && MINSIZE <= nb && 2 <= i < NBINS && h.bins[1] == [] && h.bins[i] != []
      requires h.bins[i][|h.bins[i]| - 1] in h.c && nb <= h.c[h.bins[i][|h.bins[i]| - 1]].size
      modifies `m, `h, `lastRemainder
      ensures UserSame(old(h).live, old(m), m) && p == old(h).bins[i][|old(h).bins[i]| - 1] && p != 0
      ensures lastRemainder ==
        if InSmallbinRange(nb) && nb + MINSIZE <= old(h).c[p].size then p + nb else old(lastRemainder)
      ensures ReadyBut({p}) && h == old(h).(c := h.c, bins := h.bins)
      ensures p in h.c && h.c[p].kind.Used? && nb <= h.c[p].size < nb + MINSIZE && p !in h.live
    {
      BinEntry(m, h, fastbins, i, |h.bins[i]| - 1);
      p := UnlinkLast(i);
      TagsRead(m, h.c, p);
      var size := ChunkSize(m, p);
      var r := Carve(p, nb, size);
      if r != 0 && InSmallbinRange(nb) {
        lastRemainder := r;
      }
    }

    /** The bitmap search, with the bits of empty bins cleared on the way. */
    method FindNonEmpty(idx: nat) returns (i: nat)
      requires Ready() && 2 <= idx < NBINS
      modifies `binmap
      ensures Ready() && idx < i <= NBINS && (i < NBINS ==> h.bins[i] != [])
      ensures forall k :: idx < k < i ==> h.bins[k] == []
    {
      forall k: nat | 2 <= k < NBINS ensures EmptyBin(m, k) <==> h.bins[k] == [] { CoversMemory(m, h, fastbins, k); }
      assert Covers(m, binmap);
      var b;
      i, b := FindBin(m, binmap, idx);
      binmap := b;
    }

    /** Split the request off the front of top, if top stays large enough. */
    method UseTop(nb: int) returns (p: int)
      requires Ready() && nb % 8 == 0 && MINSIZE <= nb
      modifies `m, `h, `top
      ensures UserSame(old(h).live, old(m), m)
      ensures p == 0 <==> TopTooSmall(old(h), nb)
      ensures p == 0 ==> h == old(h) && m == old(m) && top == old(top) && Ready()
      ensures p != 0 ==> ReadyBut({p}) && p == old(h).top && h == old(h).(c := h.c, top := h.top)
      ensures p != 0 ==> p in h.c && h.c[p].kind.Used? && h.c[p].size == nb && p !in h.live
    {
      TopSize(m, h, fastbins);
      var victim := top;
      var size := ChunkSize(m, victim);
      p := 0;
      if size >= nb + MINSIZE {
        SplitTopAll(m, h, fastbins, nb);
        assert Sound(h.c, victim);
        m := m[victim + 4 := nb + 1];
        m := m[victim + nb + 4 := size - nb + 1];
        top := victim + nb;
        h := SplitTopStep(h, nb);
        p := victim;
      }
    }

    // ----- memory from the system -----

    /** mmap: the next answer if it is a legal fresh area, else failure (-1). */
    method Mmap(size: int) returns (a: int)
      requires Ready() && 0 < size && size % PAGE == 0
      modifies `os, `answers, `h
      ensures Ready() && (a != -1 <==> Gives(old(os), old(answers), 0, size)) && answers == Asked(old(answers), 0, size)
      ensures a == -1 ==> h == old(h) && os == old(os)
      ensures a != -1 ==>
        h == MapArea(old(h), a, size) && SpareArea(h, a, size) && a % 8 == 0 && LOW <= a && a + size <= WORD
    {
      a := -1;
      if |answers| > 0 {
        var x := answers[0];
        answers := answers[1..];
        if FreshArea(os, x, size) {
          MapAreaAll(m, h, fastbins, x, size, {});
          PageAligned(x);
          os := os[x := size];
          h := MapArea(h, x, size);
          a := x;
        }
      }
    }

    /** Map a chunk of its own for a large request. */
    method MapDirectly(nb: int, ghost req: int) returns (p: int)
      requires Ready() && nb % 8 == 0 && 4 * PAGE <= nb < WORD && 0 <= req && req + 4 <= nb
      modifies `m, `h, `os, `answers, `nMmaps, `mmappedMem
      ensures Ready() && UserSame(old(h).live, old(m), m) &&
        (p != 0 <==> Gives(old(os), old(answers), nb, MapLength(nb)))
      ensures p == 0 ==> h == old(h) && os == old(os) && answers == Asked(old(answers), nb, MapLength(nb))
      ensures p != 0 ==> p !in old(h).live && p % 8 == 0 && h == old(h).(live := h.live, mm := h.mm, os := h.os)
      ensures p != 0 ==> p in h.live && h.live == old(h).live[p := Block(req, h.live[p].end)]
      ensures p != 0 ==>
        p in h.mm && p !in old(h).mm && h.mm == old(h).mm[p := h.mm[p]] && h.mm[p].base == p && LOW <= p
      ensures p != 0 ==> p + 8 + nb - 4 <= h.live[p].end
    {
      p := 0;
      var size := RoundPage(nb + 4 + ALIGN_MASK);
      if size > nb {
        MapSize(nb);
        var mm := Mmap(size);
        if mm != -1 {
          p := mm;
          UseMapping(p, size, req);
        }
      }
    }

    /** The fresh area becomes a mapped chunk of its own. */
    method UseMapping(p: int, size: int, ghost req: int)
      requires Ready() && Mappable(h, p, p, size, req)
      modifies `m, `h, `nMmaps, `mmappedMem
      ensures Ready() && UserSame(old(h).live, old(m), m) && h == MapChunk(old(h), p, p, size, req) && p !in old(h).live
      ensures p !in old(h).mm
    {
      MapChunkAll(m, h, fastbins, p, p, size, req, {});
      m := m[p := 0];
      m := m[p + 4 := size + 2];
      h := MapChunk(h, p, p, size, req);
      nMmaps := nMmaps + 1;
      mmappedMem := mmappedMem + size;
    }

    /** Head of the new top; shrunken old top and its two fenceposts. */
    method WriteGrowTags(brk: int, size: int, oldTop: int, oldSize: int)
      requires Good(fastbins) && oldTop == h.top && oldSize == ChunkSize(m, oldTop)
      modifies `m
      ensures m == GrowWrites(old(m), h, brk, size)
    {
      TopSize(m, h, fastbins);
      m := m[brk + 4 := size + 1];
      if oldSize != 0 {
        var s := RoundDown8(oldSize - 12);
        m := m[oldTop + 4 := s + 1];
        m := m[oldTop + s + 4 := 5];
        m := m[oldTop + s + 8 := 5];
      }
    }

    ghost predicate OldTopLeft(h0: Heap) { h0.top in h0.c && h0.c[h0.top].size >= 32 }

    /** Install a fresh area as top; retire the old top behind fenceposts. */
    method InstallTop(brk: int, size: int, oldTop: int, oldSize: int)
      requires Ready() && SpareArea(h, brk, size) && oldTop == h.top && oldSize == ChunkSize(m, oldTop)
      modifies `m, `h, `top, `sbrkedMem
      ensures ReadyBut(if OldTopLeft(old(h)) then {oldTop} else {})
      ensures UserSame(old(h).live, old(m), m) && sbrkedMem == old(sbrkedMem) + size
      ensures h == old(h).(c := h.c, regions := h.regions, top := brk) && brk in h.c && h.c[brk].size == size
      ensures OldTopLeft(old(h)) ==> Loose(h, oldTop) && h.c[oldTop].kind.Used?
    {
      GrowAll(m, h, fastbins, brk, size);
      WriteGrowTags(brk, size, oldTop, oldSize);
      sbrkedMem := sbrkedMem + size;
      top := brk;
      h := GrowStep(h, brk, size);
    }

    /** Install a fresh top and free what is left of the old one. */
    method ReplaceTop(brk: int, size: int)
      requires Ready() && SpareArea(h, brk, size)
      modifies `m, `h, `top, `sbrkedMem, `fastbins, `maxFast
      ensures Ready() && UserSame(old(h).live, old(m), m) && h.live == old(h).live && h.mm == old(h).mm
      ensures sbrkedMem == old(sbrkedMem) + size && h.top in h.c && size <= h.c[h.top].size
    {
      TopSize(m, h, fastbins);
      var oldTop := top;
      var oldSize := ChunkSize(m, oldTop);
      InstallTop(brk, size, oldTop, oldSize);
      if oldSize != 0 && RoundDown8(oldSize - 12) >= MINSIZE {
        FreeChunk(oldTop);
      }
    }

    /** Get a new top large enough for nb bytes. */
    method GrowTop(nb: int) returns (ok: bool)
      requires Ready() && nb % 8 == 0 && MINSIZE <= nb && nb + MINSIZE < WORD
      modifies `m, `h, `top, `sbrkedMem, `os, `answers, `fastbins, `maxFast
      ensures Ready() && UserSame(old(h).live, old(m), m) && h.live == old(h).live && h.mm == old(h).mm
      ensures ok <==> Gives(old(os), old(answers), nb, GrowLength(nb))
      ensures !ok ==> h == old(h) && HaveFast() == old(HaveFast())
      ensures ok ==> h.top in h.c && nb + MINSIZE <= h.c[h.top].size
    {
      ok := false;
      var size := RoundPage(nb + MINSIZE);
      RoundPageBounds(nb + MINSIZE);
      if size < 16 * PAGE {
        size := 16 * PAGE;
      }
      if size > nb {
        var brk := Mmap(size);
        if brk != -1 {
          ReplaceTop(brk, size);
          ok := true;
        }
      }
    }

    // ----- malloc -----

    /** A chunk fit to be handed out for a request of nb bytes. */
    ghost predicate Fresh(p: int, nb: int)
      reads this
    {
      p in h.c && h.c[p].kind.Used? && nb <= h.c[p].size < nb + MINSIZE && p !in h.live
    }

    /** Everything after the fastbin and small bin checks. */
    method SearchBins(nb: int) returns (p: int, ghost how: How)
      requires Ready() && nb % 8 == 0 && MINSIZE <= nb && 2 <= BinIndex(nb) < NBINS
      requires InSmallbinRange(nb) ==> h.bins[SmallbinIndex(nb)] == []
      modifies `m, `h, `binmap, `lastRemainder
      ensures UserSame(old(h).live, old(m), m) && h == old(h).(c := h.c, bins := h.bins)
      ensures p != 0 ==> ReadyBut({p}) && Fresh(p, nb)
      ensures p != 0 ==> how == Fit || how == Remainder
      ensures p != 0 && how == Fit ==> BestFit(old(h).c, p, nb)
      ensures p != 0 && how == Remainder ==> RemainderCase(old(h).c, old(lastRemainder), p, nb)
      ensures p == 0 ==> Ready() && NoneFits(h.c, nb) && SameShape(old(h).c, h.c) && lastRemainder == old(lastRemainder)
    {
      how := Fit;
      ghost var fromRemainder;
      p, fromRemainder := DrainUnsorted(nb);
      if p != 0 {
        how := if fromRemainder then Remainder else Fit;
        return;
      }
      ghost var c1 := h.c;
      var idx: nat := BinIndex(nb);
      if !InSmallbinRange(nb) {
        p := TryOwnBin(nb, idx);
        if p != 0 {
          BestFitShape(old(h).c, c1, p, nb);
          return;
        }
      }
      p := TryLargerBins(nb, idx);
      if p != 0 { BestFitShape(old(h).c, c1, p, nb); }
    }

    /** The search through everything that has been freed. */
    method SearchFree(nb: int) returns (p: int, ghost how: How, ghost mid: Heap)
      requires Ready() && nb % 8 == 0 && MINSIZE <= nb
      modifies `m, `h, `top, `fastbins, `maxFast, `binmap, `lastRemainder
      ensures UserSame(old(h).live, old(m), m) && h == old(h).(c := h.c, bins := h.bins, fast := h.fast, top := h.top)
      ensures Tidied(old(h), mid, nb) && (HaveFast() ==> old(HaveFast()) && InSmallbinRange(nb))
      ensures p != 0 ==> ReadyBut({p}) && Fresh(p, nb) && Policy(how, mid, old(lastRemainder), p, nb) && InHeap(how)
      ensures p == 0 ==> lastRemainder == old(lastRemainder)
      ensures p == 0 ==> Ready() && mid == h && NoFastHit(h.c, nb) && NoneFits(h.c, nb)
    {
      TidiedOrLarge(h, nb);
      mid := h;
      p, how := TryExact(nb);
      if p == 0 {
        p, how, mid := SearchAll(nb);
      }
    }

    /** The two checks for a chunk of exactly the size asked for. */
    method TryExact(nb: int) returns (p: int, ghost how: How)
      requires Ready() && nb % 8 == 0 && MINSIZE <= nb
      modifies `m, `h, `fastbins
      ensures UserSame(old(h).live, old(m), m) && h == old(h).(c := h.c, bins := h.bins, fast := h.fast)
      ensures p != 0 ==> ReadyBut({p}) && Fresh(p, nb) && InSmallbinRange(nb)
      ensures p != 0 ==> Policy(how, old(h), lastRemainder, p, nb) && InHeap(how)
      ensures p == 0 ==> h == old(h) && m == old(m) && fastbins == old(fastbins) && Ready() && NoFastHit(h.c, nb)
      ensures p == 0 && InSmallbinRange(nb) ==> h.bins[SmallbinIndex(nb)] == []
    {
      how := FastHit;
      p := TryFastbin(nb);
      if p != 0 { FastIsSmall(old(h), p); return; }
      if InSmallbinRange(nb) {
        p := TrySmallbin(nb);
        how := Fit;
      }
    }

    /** The search of all bins, after consolidation for a large request. */
    method SearchAll(nb: int) returns (p: int, ghost how: How, ghost mid: Heap)
      requires Ready() && nb % 8 == 0 && MINSIZE <= nb && NoFastHit(h.c, nb)
      requires InSmallbinRange(nb) ==> h.bins[SmallbinIndex(nb)] == []
      modifies `m, `h, `top, `fastbins, `maxFast, `binmap, `lastRemainder
      ensures UserSame(old(h).live, old(m), m) && h == old(h).(c := h.c, bins := h.bins, fast := h.fast, top := h.top)
      ensures Tidied(old(h), mid, nb) && (HaveFast() ==> old(HaveFast()) && InSmallbinRange(nb))
      ensures p != 0 ==> ReadyBut({p}) && Fresh(p, nb) && Policy(how, mid, old(lastRemainder), p, nb) && InHeap(how)
      ensures p == 0 ==> lastRemainder == old(lastRemainder)
      ensures p == 0 ==> Ready() && mid == h && NoFastHit(h.c, nb) && NoneFits(h.c, nb)
    {
      BinIndexRange(nb);
      PrepareBins(nb);
      mid := h;
      p, how := SearchBins(nb);
      if p == 0 {
        TidiedRefiled(old(h), mid, h, nb);
        FastMissShape(mid.c, h.c, nb);
        mid := h;
      }
    }

    /** If this is a large request, consolidate fastbins before continuing. */
    method PrepareBins(nb: int)
      requires Ready() && nb % 8 == 0 && MINSIZE <= nb && NoFastHit(h.c, nb)
      requires InSmallbinRange(nb) ==> h.bins[SmallbinIndex(nb)] == []
      modifies `m, `h, `top, `fastbins, `maxFast
      ensures Ready() && UserSame(old(h).live, old(m), m)
      ensures h == old(h).(c := h.c, bins := h.bins, fast := h.fast, top := h.top)
      ensures Tidied(old(h), h, nb) && NoFastHit(h.c, nb) && (HaveFast() ==> old(HaveFast()) && InSmallbinRange(nb))
      ensures InSmallbinRange(nb) ==> h.bins[SmallbinIndex(nb)] == []
    {
      SameShapeRefl(h.c);
      if !InSmallbinRange(nb) && HaveFast() {
        Consolidate();
        FastMiss(h, nb);
      }
    }

    /** Top, after the search: the whole of mALLOc up to the call of sYSMALLOc. */
    method MallocChunk(nb: int) returns (p: int, ghost how: How, ghost mid: Heap)
      requires Ready() && nb % 8 == 0 && MINSIZE <= nb
      modifies `m, `h, `top, `fastbins, `maxFast, `binmap, `lastRemainder
      ensures UserSame(old(h).live, old(m), m) && h == old(h).(c := h.c, bins := h.bins, fast := h.fast, top := h.top)
      ensures Tidied(old(h), mid, nb) && (HaveFast() ==> old(HaveFast()) && InSmallbinRange(nb))
      ensures p != 0 ==> ReadyBut({p}) && Fresh(p, nb) && Policy(how, mid, old(lastRemainder), p, nb) && InHeap(how)
      ensures p == 0 ==> lastRemainder == old(lastRemainder)
      ensures p == 0 ==> Ready() && mid == h && Missed(h, nb)
    {
      p := 0;
      mid := h;
      if HaveAny() {
        p, how, mid := SearchFree(nb);
        if p != 0 { return; }
      } else {
        NothingFree(h, nb);
        FastMiss(h, nb);
        TidiedSelf(h, nb);
      }
      how := FromTop;
      TopSize(m, h, fastbins);
      p := UseTop(nb);
    }

    /** The chunk becomes a block of the program. */
    method HandOut(p: int, nb: int, ghost req: int) returns (r: int)
      requires ReadyBut({p}) && Fresh(p, nb) && 0 <= req && req + 4 <= nb
      modifies `h
      ensures Ready() && r == p + 8 && r != 0 && Granted(old(h), h, r, req, nb) && h == old(h).(live := h.live)
    {
      AddLiveAll(m, h, fastbins, p, req, {p});
      assert {p} - {p} == {};
      assert p !in h.mm by { AddLiveInv(h, p, req); }
      h := AddLive(h, p, req);
      r := p + 8;
    }

    /** More memory from the system: consolidate and retry, map the request on
        its own, or replace top. h0 is the heap before it was searched. */
    method SysMalloc(nb: int, ghost req: int, ghost h0: Heap, ghost m0: Mem, ghost last: int)
      returns (r: int, ghost how: How, ghost mid: Heap)
      requires Ready() && nb % 8 == 0 && MINSIZE <= nb && nb + MINSIZE < WORD && 0 <= req && req + 4 <= nb
      requires Missed(h, nb) && (HaveFast() ==> InSmallbinRange(nb))
      requires Tidied(h0, h, nb) && h.live == h0.live && h.mm == h0.mm && UserSame(h0.live, m0, m)
      requires last == lastRemainder
      modifies this
      ensures Ready() && UserSame(h0.live, m0, m) && Granted(h0, h, r, req, nb)
      ensures Tidied(h0, mid, nb) && Policy(how, mid, last, r - 8, nb)
      ensures System(how, old(os), old(answers), old(nMmaps), nb) && (r == 0 <==> how == Failed)
      decreases HaveFast(), 1
    {
      if HaveFast() {
        r, how, mid := Retry(nb, req);
        TidiedTwice(h0, old(h), mid, nb);
      } else {
        mid := h;
        r, how := SysGrow(nb, req);
      }
      GrantedSince(h0, old(h), h, r, req, nb);
      SameTwice(h0.live, m0, old(m), m);
    }

    /** Consolidate fastbins and start over. */
    method Retry(nb: int, ghost req: int) returns (r: int, ghost how: How, ghost mid: Heap)
      requires Ready() && nb % 8 == 0 && MINSIZE <= nb && nb + MINSIZE < WORD && 0 <= req && req + 4 <= nb
      requires Missed(h, nb) && HaveFast() && InSmallbinRange(nb)
      modifies this
      ensures Ready() && UserSame(old(h).live, old(m), m) && Granted(old(h), h, r, req, nb)
      ensures Tidied(old(h), mid, nb) && Policy(how, mid, old(lastRemainder), r - 8, nb)
      ensures System(how, old(os), old(answers), old(nMmaps), nb) && (r == 0 <==> how == Failed)
      decreases HaveFast(), 0
    {
      Consolidate();
      ghost var h1, m1 := h, m;
      Request2SizeReentry(nb);
      r, how, mid := MallocInner(nb - ALIGN_MASK, req);
      RetryTidied(old(h), h1, mid, nb);
      SameTwice(h1.live, old(m), m1, m);
    }

    method SysGrow(nb: int, ghost req: int) returns (r: int, ghost how: How)
      requires Ready() && nb % 8 == 0 && MINSIZE <= nb && nb + MINSIZE < WORD && 0 <= req && req + 4 <= nb
      modifies this
      ensures Ready() && UserSame(old(h).live, old(m), m) && Granted(old(h), h, r, req, nb)
      ensures how in {Failed, Grown, Mapped} && System(how, old(os), old(answers), old(nMmaps), nb)
      ensures r == 0 <==> how == Failed
    {
      if nb >= 4 * PAGE && nMmaps < 65536 {
        var p := MapDirectly(nb, req);
        if p != 0 {
          r, how := p + 8, Mapped;
          return;
        }
      }
      r := GrowAndServe(nb, req);
      how := if r != 0 then Grown else Failed;
    }

    method GrowAndServe(nb: int, ghost req: int) returns (r: int)
      requires Ready() && nb % 8 == 0 && MINSIZE <= nb && nb + MINSIZE < WORD && 0 <= req && req + 4 <= nb
      modifies this
      ensures Ready() && UserSame(old(h).live, old(m), m) && Granted(old(h), h, r, req, nb)
      ensures r != 0 <==> Gives(old(os), old(answers), nb, GrowLength(nb))
    {
      r := 0;
      var ok := GrowTop(nb);
      if ok {
        TopSize(m, h, fastbins);
        var p := UseTop(nb);
        r := HandOut(p, nb, req);
      }
    }

    /** mALLOc; req is the number of bytes the program asked for. */
    method MallocInner(bytes: int, ghost req: int) returns (r: int, ghost how: How, ghost mid: Heap)
      requires Ready() && 0 <= bytes < WORD && 0 <= req && req + 4 <= Request2Size(bytes)
      modifies this
      ensures Ready() && UserSame(old(h).live, old(m), m) && Granted(old(h), h, r, req, Request2Size(bytes))
      ensures RequestOutOfRange(bytes) <==> how == Rejected
      ensures how != Rejected ==> Tidied(old(h), mid, Request2Size(bytes))
      ensures how != Rejected ==> Policy(how, mid, old(lastRemainder), r - 8, Request2Size(bytes))
      ensures System(how, old(os), old(answers), old(nMmaps), Request2Size(bytes))
      ensures r == 0 <==> how == Failed || how == Rejected
      decreases HaveFast(), 4
    {
      mid := h;
      if RequestOutOfRange(bytes) {
        r, how := 0, Rejected;
        return;
      }
      Request2SizeIsLeast(bytes, 0);
      r, how, mid := MallocSized(Request2Size(bytes), req);
    }

    /** The rest of mALLOc, for a padded size. */
    method MallocSized(nb: int, ghost req: int) returns (r: int, ghost how: How, ghost mid: Heap)
      requires Ready() && nb % 8 == 0 && MINSIZE <= nb && nb + MINSIZE < WORD && 0 <= req && req + 4 <= nb
      modifies this
      ensures Ready() && UserSame(old(h).live, old(m), m) && Granted(old(h), h, r, req, nb)
      ensures Tidied(old(h), mid, nb) && Policy(how, mid, old(lastRemainder), r - 8, nb)
      ensures System(how, old(os), old(answers), old(nMmaps), nb) && (r == 0 <==> how == Failed)
      decreases HaveFast(), 3
    {
      r, how, mid := FromHeap(nb, req);
      r, how, mid := ElseFromSystem(r, how, mid, nb, req, old(h), old(m), old(lastRemainder));
    }

    /** Turn to the system if the heap could not serve the request. */
    method ElseFromSystem(r0: int, ghost how0: How, ghost mid0: Heap, nb: int, ghost req: int,
                          ghost h0: Heap, ghost m0: Mem, ghost last: int)
      returns (r: int, ghost how: How, ghost mid: Heap)
      requires Ready() && nb % 8 == 0 && MINSIZE <= nb && nb + MINSIZE < WORD && 0 <= req && req + 4 <= nb
      requires UserSame(h0.live, m0, m) && Granted(h0, h, r0, req, nb) && Tidied(h0, mid0, nb)
      requires r0 != 0 ==> InHeap(how0) && Policy(how0, mid0, last, r0 - 8, nb)
      requires r0 == 0 ==> mid0 == h && Missed(h, nb) && last == lastRemainder
      requires HaveFast() ==> InSmallbinRange(nb)
      modifies this
      ensures Ready() && UserSame(h0.live, m0, m) && Granted(h0, h, r, req, nb)
      ensures Tidied(h0, mid, nb) && Policy(how, mid, last, r - 8, nb)
      ensures System(how, old(os), old(answers), old(nMmaps), nb) && (r == 0 <==> how == Failed)
      decreases HaveFast(), 2
    {
      r, how, mid := r0, how0, mid0;
      if r0 == 0 {
        r, how, mid := SysMalloc(nb, req, h0, m0, last);
      }
    }

    /** Serve the request without the system, if possible. */
    method FromHeap(nb: int, ghost req: int) returns (r: int, ghost how: How, ghost mid: Heap)
      requires Ready() && nb % 8 == 0 && MINSIZE <= nb && 0 <= req && req + 4 <= nb
      modifies `m, `h, `top, `fastbins, `maxFast, `binmap, `lastRemainder
      ensures Ready() && UserSame(old(h).live, old(m), m) && Granted(old(h), h, r, req, nb) && Tidied(old(h), mid, nb)
      ensures r != 0 ==> InHeap(how) && Policy(how, mid, old(lastRemainder), r - 8, nb)
      ensures r == 0 ==> mid == h && Missed(h, nb) && lastRemainder == old(lastRemainder)
      ensures HaveFast() ==> old(HaveFast()) && InSmallbinRange(nb)
    {
      var p;
      r := 0;
      p, how, mid := MallocChunk(nb);
      if p != 0 {
        ghost var h1 := h;
        r := HandOut(p, nb, req);
        GrantedSince(old(h), h1, h, r, req, nb);
      }
    }

    // ----- initialization -----

    /** All of malloc_state is zero until the first call. */
    ghost predicate Virgin()
      reads this
    {
      && maxFast == 0 && m == map[] && h == EmptyHeap() && os == map[] && sbrkedMem == 0
      && fastbins == seq(NFASTBINS, _ => 0) && binmap == [0, 0, 0, 0]
    }

    /** The state between two calls. */
    ghost predicate Valid()
      reads this
    {
      if maxFast == 0 then Virgin() else Ready()
    }

    constructor (mmapAnswers: seq<int>)
      ensures Valid() && h == EmptyHeap() && answers == mmapAnswers
    {
      m, maxFast, top, lastRemainder, nMmaps, mmappedMem, sbrkedMem := map[], 0, 0, 0, 0, 0, 0;
      fastbins := seq(NFASTBINS, _ => 0);
      binmap := [0, 0, 0, 0];
      os, answers := map[], mmapAnswers;
      h := EmptyHeap();
    }

    /** malloc_init_state: circular links for all bins. */
    method InitState()
      requires Virgin()
      modifies `m, `maxFast, `top
      ensures Ready() && !HaveAny() && !HaveFast()
    {
      var i := 1;
      while i < NBINS
        invariant 1 <= i <= NBINS && Rd(m, BINS + 4) == 0
        invariant forall k :: 1 <= k < i ==> Fd(m, BinAt(k)) == BinAt(k) && Bk(m, BinAt(k)) == BinAt(k)
      {
        var bin := BinAt(i);
        m := m[bin + 12 := bin];
        m := m[bin + 8 := bin];
        i := i + 1;
      }
      maxFast := Request2Size(64);
      top := BinAt(1);
      EmptyHeapOk();
      EmptyHeapRep(m);
      assert MapOk(binmap) && CoversBins(h.bins, binmap);
    }

    method InitIfNeeded()
      requires Valid()
      modifies `m, `maxFast, `top
      ensures Ready() && UserSame(h.live, old(m), m)
    {
      if maxFast == 0 {
        InitState();
      }
    }

    // ----- the public operations -----

    /** malloc */
    method Malloc(bytes: int) returns (r: int, ghost how: How, ghost mid: Heap)
      requires Valid() && 0 <= bytes < WORD
      modifies this
      ensures Valid() && UserSame(old(h).live, old(m), m)
      ensures Granted(old(h), h, r, bytes, Request2Size(bytes))
      ensures RequestOutOfRange(bytes) <==> how == Rejected
      ensures how != Rejected ==> Tidied(old(h), mid, Request2Size(bytes))
      ensures how != Rejected ==> Policy(how, mid, old(lastRemainder), r - 8, Request2Size(bytes))
      ensures System(how, old(os), old(answers), old(nMmaps), Request2Size(bytes))
      ensures r == 0 <==> how == Failed || how == Rejected
    {
      if RequestOutOfRange(bytes) {
        r, how, mid := 0, Rejected, h;
        return;
      }
      r, how, mid := MallocAccepted(bytes);
    }

    /** malloc within the range of sizes. */
    method MallocAccepted(bytes: int) returns (r: int, ghost how: How, ghost mid: Heap)
      requires Valid() && 0 <= bytes && !RequestOutOfRange(bytes)
      modifies this
      ensures Ready() && UserSame(old(h).live, old(m), m)
      ensures Granted(old(h), h, r, bytes, Request2Size(bytes)) && Tidied(old(h), mid, Request2Size(bytes))
      ensures Policy(how, mid, old(lastRemainder), r - 8, Request2Size(bytes))
      ensures System(how, old(os), old(answers), old(nMmaps), Request2Size(bytes))
      ensures how != Rejected && (r == 0 <==> how == Failed)
    {
      Request2SizeIsLeast(bytes, 0);
      InitIfNeeded();
      ghost var m1 := m;
      r, how, mid := MallocInner(bytes, bytes);
      SameTwice(old(h).live, old(m), m1, m);
    }

    /** Give a mapped chunk back to the system. */
    method FreeMapped(p: int, size: int)
      requires Ready() && p in h.mm && size == ChunkSize(m, p)
      modifies `h, `os, `nMmaps, `mmappedMem
      ensures Ready() && h.live == old(h).live - {p} && h.mm == old(h).mm - {p} && os == old(os) - {old(h).mm[p].base}
    {
      assert MapSound(h, p);
      BlockTags(m, h, fastbins, p);
      UnmapAll(m, h, fastbins, p);
      var offset := Foot(m, p);
      nMmaps := nMmaps - 1;
      mmappedMem := mmappedMem - (size + offset);
      os := os - {p - offset};
      h := UnmapArea(DropMap(h, p), p - offset);
    }

    /** free: the block is gone, every other block keeps its bytes. */
    method FreeBlock(mem: int)
      requires Valid() && (mem != 0 ==> mem - 8 in h.live)
      modifies this
      ensures Valid() && h.live == (if mem == 0 then old(h).live else old(h).live - {mem - 8})
      ensures UserSame(h.live, old(m), m)
      ensures h.mm == (if mem == 0 then old(h).mm else old(h).mm - {mem - 8})
      ensures os == if mem != 0 && mem - 8 in old(h).mm then old(os) - {old(h).mm[mem - 8].base} else old(os)
      ensures mem != 0 && mem - 8 !in old(h).mm && mem - 8 in old(h).c ==>
        FreeTotal(h.c) == FreeTotal(old(h).c) + old(h).c[mem - 8].size
    {
      if mem != 0 {
        var p := mem - 8;
        BlockTags(m, h, fastbins, p);
        var size := ChunkSize(m, p);
        if size <= maxFast || !IsMmapped(m, p) {
          DropLiveAll(m, h, fastbins, p, {});
          assert {} + {p} == {p};
          assert h.mm - {p} == h.mm;
          h := DropLive(h, p);
          FreeChunk(p);
        } else {
          FreeMapped(p, size);
        }
      }
    }

    // ----- realloc -----

    /** Keep the whole stretched chunk. */
    method FinishWhole(p: int, newsize: int, ghost c1: Arena, ghost xs: set<int>, ghost req: int)
      requires ReadyBut(xs) && Stretched(h, c1, p, p + newsize) && Total(c1) == Total(h.c)
      requires (forall x :: x in xs ==> p <= x < p + newsize) && 0 <= req && req + 4 <= newsize
      modifies `m, `h
      ensures Ready() && UserSame(old(h).live, old(m), m)
      ensures h.live == old(h).live[p := Block(req, p + newsize + 4)] && h.mm == old(h).mm
      ensures forall a :: p + 8 <= a < p + newsize + 4 ==> Rd(m, a) == Rd(old(m), a)
    {
      FinishWholeAll(m, h, fastbins, c1, p, p + newsize, xs, req);
      WriteWholeTags(p, newsize);
      h := AddLive(h.(c := c1), p, req);
    }

    /** set_head_size(p, newsize), set_inuse_bit_at_offset(p, newsize) */
    method WriteWholeTags(p: int, newsize: int)
      modifies `m
      ensures m == old(m)[p + 4 := newsize + Head(old(m), p) % 2]
        [p + newsize + 4 := WithPrevInuse(Head(old(m), p + newsize))]
    {
      var next := WithPrevInuse(Head(m, p + newsize));
      m := m[p + 4 := newsize + Head(m, p) % 2];
      m := m[p + newsize + 4 := next];
    }

    /** set_head_size(p, nb), head of the tail, in-use bit after the tail. */
    method WriteCutTags(p: int, newsize: int, nb: int)
      modifies `m
      ensures m == old(m)[p + 4 := nb + Head(old(m), p) % 2][p + nb + 4 := newsize - nb + 1]
        [p + newsize + 4 := WithPrevInuse(Head(old(m), p + newsize))]
    {
      var next := WithPrevInuse(Head(m, p + newsize));
      m := m[p + 4 := nb + Head(m, p) % 2];
      m := m[p + nb + 4 := newsize - nb + 1];
      m := m[p + newsize + 4 := next];
    }

    /** Cut the stretched chunk after nb bytes. */
    method FinishCut(p: int, newsize: int, nb: int, ghost c1: Arena, ghost xs: set<int>, ghost req: int)
      requires ReadyBut(xs) && Stretched(h, c1, p, p + newsize) && Total(c1) == Total(h.c)
      requires (forall x :: x in xs ==> p <= x < p + newsize) && 0 <= req && req + 4 <= nb
      requires nb % 8 == 0 && MINSIZE <= nb && nb + MINSIZE <= newsize
      modifies `m, `h
      ensures ReadyBut({p + nb}) && UserSame(old(h).live, old(m), m)
      ensures Loose(h, p + nb) && h.c[p + nb].kind.Used? && h.c[p + nb].size == newsize - nb
      ensures h.live == old(h).live[p := Block(req, p + nb + 4)] && h.mm == old(h).mm
      ensures forall a :: p + 8 <= a < p + nb + 4 ==> Rd(m, a) == Rd(old(m), a)
    {
      CutStretched(p, newsize, nb, c1, xs, req);
    }

    method CutStretched(p: int, newsize: int, nb: int, ghost c1: Arena, ghost xs: set<int>, ghost req: int)
      requires Good(fastbins) && StableBut(h, xs) && Stretched(h, c1, p, p + newsize) && Total(c1) == Total(h.c)
      requires (forall x :: x in xs ==> p <= x < p + newsize) && 0 <= req && req + 4 <= nb
      requires nb % 8 == 0 && MINSIZE <= nb && nb + MINSIZE <= newsize
      modifies `m, `h
      ensures Good(fastbins) && StableBut(h, {p + nb}) && UserSame(old(h).live, old(m), m)
      ensures Loose(h, p + nb) && h.c[p + nb].kind.Used? && h.c[p + nb].size == newsize - nb
      ensures h == old(h).(c := h.c, live := old(h).live[p := Block(req, p + nb + 4)])
      ensures forall a :: p + 8 <= a < p + nb + 4 ==> Rd(m, a) == Rd(old(m), a)
    {
      FinishCutAll(m, h, fastbins, c1, p, p + newsize, nb, xs, req);
      WriteCutTags(p, newsize, nb);
      h := AddLive(h.(c := Cut(c1, p, nb)), p, req);
    }

    /** If possible, free extra space in the old or extended chunk. */
    method Finish(p: int, newsize: int, nb: int, ghost c1: Arena, ghost xs: set<int>, ghost req: int)
      requires ReadyBut(xs) && Stretched(h, c1, p, p + newsize) && Total(c1) == Total(h.c)
      requires (forall x :: x in xs ==> p <= x < p + newsize) && 0 <= req && req + 4 <= nb <= newsize
      requires nb % 8 == 0 && MINSIZE <= nb
      modifies `m, `h, `top, `fastbins, `maxFast
      ensures Ready() && UserSame(old(h).live, old(m), m)
      ensures p in h.live && h.live == old(h).live[p := Block(req, h.live[p].end)] && h.mm == old(h).mm
      ensures p + nb + 4 <= h.live[p].end
      ensures forall a :: p + 8 <= a < p + nb + 4 ==> Rd(m, a) == Rd(old(m), a)
    {
      if newsize - nb < MINSIZE {
        FinishWhole(p, newsize, c1, xs, req);
      } else {
        FinishCut(p, newsize, nb, c1, xs, req);
        ghost var m1, live1 := m, h.live;
        FreeChunk(p + nb);
        SameForFewer(old(h).live, live1, m1, m);
        assert live1[p].end == p + nb + 4;
      }
    }

    /** Already big enough: split off what is not needed. */
    method ReallocInPlace(p: int, nb: int, oldsize: int, ghost bytes: int)
      requires Ready() && p in h.live && p !in h.mm && p in h.c && oldsize == h.c[p].size
      requires 0 <= bytes && bytes + 4 <= nb <= oldsize && nb % 8 == 0 && MINSIZE <= nb
      modifies `m, `h, `top, `fastbins, `maxFast
      ensures Ready() && Resized(old(h), h, old(m), m, p, p + 8, bytes)
    {
      BlockTags(m, h, fastbins, p);
      UserWriteAbove(h, p);
      assert Sound(h.c, p);
      DropLiveAll(m, h, fastbins, p, {});
      assert {} + {p} == {p};
      h := DropLive(h, p);
      StretchNone(h, p);
      Finish(p, oldsize, nb, h.c, {p}, bytes);
    }

    /** Expand forward into a free successor. */
    method ReallocIntoFree(p: int, nb: int, oldsize: int, next: int, nextsize: int, ghost bytes: int)
      requires Ready() && p in h.live && p !in h.mm && p in h.c && oldsize == h.c[p].size
      requires next == p + oldsize && next in h.c && h.c[next].kind.Free? && nextsize == h.c[next].size
      requires 0 <= bytes && bytes + 4 <= nb <= oldsize + nextsize && oldsize < nb && nb % 8 == 0 && MINSIZE <= nb
      modifies `m, `h, `top, `fastbins, `maxFast
      ensures Ready() && Resized(old(h), h, old(m), m, p, p + 8, bytes)
    {
      assert Settled(h, next) && LiveSound(h, p);
      ghost var k := BinPosition(h, next);
      assert HaveAny();
      UnlinkFree(next, fastbins, {});
      assert {} + {next} == {next};
      ghost var h1, m1 := h, m;
      FinishOverFree(p, nb, oldsize, next, nextsize, bytes);
      ResizedLater(old(h), h1, h, old(m), m1, m, p, p + 8, bytes);
    }

    /** The free successor is off its bin: absorb it. */
    method FinishOverFree(p: int, nb: int, oldsize: int, next: int, nextsize: int, ghost bytes: int)
      requires ReadyBut({next}) && p in h.live && p !in h.mm && p in h.c && oldsize == h.c[p].size
      requires next == p + oldsize && next in h.c && h.c[next].kind == Free(0) && nextsize == h.c[next].size
      requires 0 <= bytes && bytes + 4 <= nb <= oldsize + nextsize && nb % 8 == 0 && MINSIZE <= nb
      modifies `m, `h, `top, `fastbins, `maxFast
      ensures Ready() && Resized(old(h), h, old(m), m, p, p + 8, bytes)
    {
      BlockTags(m, h, fastbins, p);
      UserWriteAbove(h, p);
      assert Sound(h.c, p) && Sound(h.c, next);
      DropLiveAll(m, h, fastbins, p, {next});
      h := DropLive(h, p);
      StretchFree(h, p);
      ForwardMergeTotal(h.c, p);
      assert {next} + {p} == {p, next};
      Finish(p, oldsize + nextsize, nb, ForwardMerge(h.c, p), {p, next}, bytes);
    }

    /** Expand forward into top. */
    method ReallocIntoTop(p: int, nb: int, oldsize: int, newsize: int, ghost bytes: int)
      requires Ready() && p in h.live && p !in h.mm && p in h.c && oldsize == h.c[p].size && p + oldsize == top
      requires top in h.c && newsize == oldsize + h.c[top].size
      requires 0 <= bytes && bytes + 4 <= nb && oldsize < nb && nb + MINSIZE <= newsize && nb % 8 == 0
      modifies `m, `h, `top
      ensures Ready() && Resized(old(h), h, old(m), m, p, p + 8, bytes)
    {
      UserWriteAbove(h, p);
      assert Sound(h.c, p) && LiveSound(h, p);
      ShiftTopAll(m, h, fastbins, p, nb, bytes);
      WriteTopShift(p, nb, newsize);
      h := ShiftedTop(h, p, nb, bytes);
    }

    /** set_head_size(p, nb), the new top and its head */
    method WriteTopShift(p: int, nb: int, newsize: int)
      modifies `m, `top
      ensures m == old(m)[p + 4 := nb + Head(old(m), p) % 2][p + nb + 4 := newsize - nb + 1] && top == p + nb
    {
      m := m[p + 4 := nb + Head(m, p) % 2];
      top := p + nb;
      m := m[top + 4 := newsize - nb + 1];
    }

    /** Copy words lo..hi of one block into another. */
    method CopyRange(d: int, s: int, lo: nat, hi: nat)
      requires Ready() && d - 8 in h.live && s - 8 in h.live && d != s && lo <= hi
      requires d + 4 * hi <= h.live[d - 8].end && s + 4 * hi <= h.live[s - 8].end
      modifies `m
      ensures Ready() && UserSame(h.live - {d - 8}, old(m), m)
      ensures forall i :: lo <= i < hi ==> Rd(m, d + 4 * i) == Rd(old(m), s + 4 * i)
      ensures forall i :: 0 <= i < lo ==> Rd(m, d + 4 * i) == Rd(old(m), d + 4 * i)
    {
      var i := lo;
      while i < hi
        invariant lo <= i <= hi && Ready() && UserSame(h.live - {d - 8}, old(m), m)
        invariant forall k :: lo <= k < i ==> Rd(m, d + 4 * k) == Rd(old(m), s + 4 * k)
        invariant forall k :: 0 <= k < lo ==> Rd(m, d + 4 * k) == Rd(old(m), d + 4 * k)
      {
        var v := Rd(m, s + 4 * i);
        assert v == Rd(old(m), s + 4 * i) by { assert (h.live - {d - 8})[s - 8] == h.live[s - 8]; }
        UserWrite(m, h, fastbins, d - 8, d + 4 * i, v);
        SameTwice(h.live - {d - 8}, old(m), m, m[d + 4 * i := v]);
        m := m[d + 4 * i := v];
        i := i + 1;
      }
    }

    /** Copy a small block: 3, 5, 7 or 9 words, unrolled as the source does. */
    method CopySmall(d: int, s: int, n: nat)
      requires Ready() && d - 8 in h.live && s - 8 in h.live && d != s && 3 <= n <= 9 && n % 2 == 1
      requires d + 4 * n <= h.live[d - 8].end && s + 4 * n <= h.live[s - 8].end
      modifies `m
      ensures Ready() && UserSame(h.live - {d - 8}, old(m), m)
      ensures forall i :: 0 <= i < n ==> Rd(m, d + 4 * i) == Rd(old(m), s + 4 * i)
    {
      ghost var others := h.live - {d - 8};
      assert others[s - 8] == h.live[s - 8];
      CopyRange(d, s, 0, 3);
      if n > 4 {
        CopyRange(d, s, 3, 5);
        if n > 6 {
          CopyRange(d, s, 5, 7);
          if n > 8 {
            CopyRange(d, s, 7, 9);
          }
        }
      }
    }

    /** Copy n words of block p into the new block, then free p. */
    method Relocate(p: int, r: int, n: nat)
      requires Ready() && p in h.live && r - 8 in h.live && r - 8 != p && (9 < n || (3 <= n && n % 2 == 1))
      requires r + 4 * n <= h.live[r - 8].end && p + 8 + 4 * n == h.live[p].end
      modifies this
      ensures Ready() && h.live == old(h).live - {p}
      ensures UserSame(old(h).live - {p} - {r - 8}, old(m), m)
      ensures forall i :: 0 <= i < n ==> Rd(m, r + 4 * i) == Rd(old(m), p + 8 + 4 * i)
    {
      UserWriteAbove(h, p);
      if n > 9 {
        CopyRange(r, p + 8, 0, n);
      } else {
        CopySmall(r, p + 8, n);
      }
      ghost var m1, others := m, h.live - {p} - {r - 8};
      SameForFewer(others, h.live - {r - 8}, old(m), m1);
      FreeBlock(p + 8);
      SameForFewer(others, h.live, m1, m);
      SameTwice(others, old(m), m1, m);
      assert h.live[r - 8] == old(h).live[r - 8];
    }

    /** The new chunk turned out to be the successor: glue the two. */
    method ReallocJoin(p: int, nb: int, oldsize: int, newsize: int, ghost bytes: int)
      requires Ready() && p in h.live && p !in h.mm && p in h.c && oldsize == h.c[p].size
      requires p + oldsize in h.live && p + oldsize !in h.mm && p + oldsize in h.c && newsize == h.c[p + oldsize].size
      requires 0 <= bytes && bytes + 4 <= nb <= newsize && oldsize < nb && nb % 8 == 0 && MINSIZE <= nb
      modifies `m, `h, `top, `fastbins, `maxFast
      ensures Ready() && Resized(old(h).(live := old(h).live - {p + oldsize}), h, old(m), m, p, p + 8, bytes)
    {
      var n := p + oldsize;
      UserWriteAbove(h, p);
      assert LiveSound(h, p);
      JoinAll(m, h, fastbins, p, n);
      assert Sound(h.c, p) && Sound(h.c, n);
      h := DropLive(DropLive(h, p), n);
      assert old(h).live - {p} - {n} == old(h).live - {n} - {p};
      Finish(p, oldsize + newsize, nb, Join(h.c, p), {p, n}, bytes);
    }

    /** Block q takes over from block p by copying. */
    method CopyInto(p: int, q: int, n: nat, ghost bytes: int)
      requires Ready() && p in h.live && q in h.live && q != p && q % 8 == 0 && h.live[q].req == bytes
      requires (9 < n || (3 <= n && n % 2 == 1)) && p + 8 + 4 * n == h.live[p].end
      requires q + 8 + bytes <= h.live[q].end && q + 8 + 4 * n <= h.live[q].end
      modifies this
      ensures Ready() && Resized(old(h).(live := old(h).live - {q}), h, old(m), m, p, q + 8, bytes)
    {
      UserWriteAbove(h, q);
      Relocate(p, q + 8, n);
      CopiedIsResized(old(h), h, old(m), m, p, q, bytes, n);
    }

    /** Block q is to take over from block p: glue the two or copy and free. */
    method MoveInto(p: int, q: int, nb: int, oldsize: int, ghost bytes: int) returns (r: int)
      requires Ready() && p in h.live && p !in h.mm && p in h.c && oldsize == h.c[p].size < nb
      requires q in h.live && q != p && q % 8 == 0 && h.live[q].req == bytes && q + nb + 4 <= h.live[q].end
      requires 0 <= bytes && bytes + 4 <= nb && nb % 8 == 0 && MINSIZE <= nb
      modifies this
      ensures Ready() && r != 0 && Resized(old(h).(live := old(h).live - {q}), h, old(m), m, p, r, bytes)
    {
      BlockTags(m, h, fastbins, p);
      UserWriteAbove(h, p);
      UserWriteAbove(h, q);
      if q == p + oldsize {
        InRegionWithNext(h, p);
        ChunkNotMapped(h, q);
        BlockTags(m, h, fastbins, q);
        var newsize := ChunkSize(m, q);
        ReallocJoin(p, nb, oldsize, newsize, bytes);
        r := p + 8;
      } else {
        CopyInto(p, q, (oldsize - 4) / 4, bytes);
        r := q + 8;
      }
    }

    /** malloc for a padded size, as realloc calls it. */
    method MallocAgain(nb: int, ghost req: int) returns (r: int, ghost mid: Heap)
      requires Ready() && 0 <= req && req + 4 <= nb && nb + MINSIZE < WORD && nb % 8 == 0 && MINSIZE <= nb
      modifies this
      ensures Ready() && UserSame(old(h).live, old(m), m) && Granted(old(h), h, r, req, nb)
      ensures r == 0 ==> Exhausted(old(h), mid, old(os), old(answers), old(nMmaps), nb)
    {
      Request2SizeReentry(nb);
      ghost var how;
      r, how, mid := MallocInner(nb - ALIGN_MASK, req);
      if how == Rejected { LargestFail(old(h), mid, old(os), old(answers), old(nMmaps), nb); }
    }

    /** Allocate, copy, free; on failure mid is the heap that malloc searched in vain. */
    method ReallocMove(p: int, nb: int, oldsize: int, ghost bytes: int) returns (r: int, ghost mid: Heap)
      requires Ready() && p in h.live && p !in h.mm && p in h.c && oldsize == h.c[p].size
      requires 0 <= bytes && bytes + 4 <= nb && oldsize < nb && nb + MINSIZE < WORD && nb % 8 == 0 && MINSIZE <= nb
      modifies this
      ensures Ready() && Resized(old(h), h, old(m), m, p, r, bytes)
      ensures r == 0 ==> Exhausted(old(h), mid, old(os), old(answers), old(nMmaps), nb)
    {
      BlockTags(m, h, fastbins, p);
      r, mid := MallocAgain(nb, bytes);
      if r != 0 {
        ghost var h1, m1 := h.(live := h.live - {r - 8}), m;
        BlockTags(m, h, fastbins, p);
        assert h1.live == old(h).live;
        r := MoveInto(p, r - 8, nb, oldsize, bytes);
        ResizedLater(old(h), h1, h, old(m), m1, m, p, r, bytes);
      }
    }

    /** The four ways to resize a chunk of the arena. */
    method ReallocChunk(p: int, nb: int, ghost bytes: int) returns (r: int, ghost mid: Heap)
      requires Ready() && p in h.live && p !in h.mm
      requires 0 <= bytes && bytes + 4 <= nb && nb + MINSIZE < WORD && nb % 8 == 0 && MINSIZE <= nb
      modifies this
      ensures Ready() && Resized(old(h), h, old(m), m, p, r, bytes)
      ensures p + nb + 4 <= old(h).live[p].end ==> r == p + 8
      ensures r == 0 ==> Exhausted(old(h), mid, old(os), old(answers), old(nMmaps), nb)
    {
      BlockTags(m, h, fastbins, p);
      mid := h;
      var oldsize := ChunkSize(m, p);
      r := p + 8;
      UserWriteAbove(h, p);
      if oldsize >= nb {
        ReallocInPlace(p, nb, oldsize, bytes);
      } else {
        var next := p + oldsize;
        NextTags(m, h, fastbins, p);
        var nextsize := ChunkSize(m, next);
        if next == top && oldsize + nextsize >= nb + MINSIZE {
          ReallocIntoTop(p, nb, oldsize, oldsize + nextsize, bytes);
        } else if next != top && !PrevInuse(m, next + nextsize) && oldsize + nextsize >= nb {
          ReallocIntoFree(p, nb, oldsize, next, nextsize, bytes);
        } else {
          r, mid := ReallocMove(p, nb, oldsize, bytes);
        }
      }
    }

    /** The block stays where it is; only the request changes. */
    ghost method KeepMapped(p: int, bytes: int)
      requires Ready() && p in h.mm && p in h.live && p % 8 == 0 && 0 <= bytes && p + 8 + bytes <= h.live[p].end
      modifies `h
      ensures Ready() && Resized(old(h), h, m, m, p, p + 8, bytes)
    {
      UserWriteAbove(h, p);
      KeepMapAll(m, h, fastbins, p, bytes);
      h := h.(live := h.live[p := h.live[p].(req := bytes)]);
    }

    /** A mapped chunk is kept while it is large enough, else copied and unmapped. */
    method ReallocMapped(p: int, nb: int, ghost bytes: int) returns (r: int, ghost mid: Heap)
      requires Ready() && p in h.mm && p in h.live
      requires 0 <= bytes && bytes + 4 <= nb && nb + MINSIZE < WORD && nb % 8 == 0 && MINSIZE <= nb
      modifies this
      ensures Ready() && Resized(old(h), h, old(m), m, p, r, bytes)
      ensures p + nb + 4 <= old(h).live[p].end ==> r == p + 8
      ensures r == 0 ==> Exhausted(old(h), mid, old(os), old(answers), old(nMmaps), nb)
    {
      BlockTags(m, h, fastbins, p);
      UserWriteAbove(h, p);
      mid := h;
      var oldsize := ChunkSize(m, p);
      assert MapSound(h, p);
      if oldsize >= nb + 4 {
        KeepMapped(p, bytes);
        r := p + 8;
      } else {
        r, mid := ReallocUnmap(p, nb, oldsize, bytes);
      }
    }

    method CopyMapped(p: int, q: int, oldsize: int, ghost bytes: int)
      requires Ready() && p in h.live && q in h.live && q != p && q % 8 == 0 && h.live[q].req == bytes
      requires oldsize % 8 == 0 && MAX_FAST < oldsize && h.live[p].end == p + oldsize
      requires q + 8 + bytes <= h.live[q].end && q + oldsize <= h.live[q].end
      modifies this
      ensures Ready() && Resized(old(h).(live := old(h).live - {q}), h, old(m), m, p, q + 8, bytes)
    {
      var words := (oldsize - 8) / 4;
      MappedWords(oldsize, words);
      CopyInto(p, q, words, bytes);
    }

    method ReallocUnmap(p: int, nb: int, oldsize: int, ghost bytes: int) returns (r: int, ghost mid: Heap)
      requires Ready() && p in h.mm && p in h.live && h.live[p].end == p + oldsize && oldsize < nb + 4
      requires oldsize % 8 == 0 && MAX_FAST < oldsize
      requires 0 <= bytes && bytes + 4 <= nb && nb + MINSIZE < WORD && nb % 8 == 0 && MINSIZE <= nb
      modifies this
      ensures Ready() && Resized(old(h), h, old(m), m, p, r, bytes)
      ensures r == 0 ==> Exhausted(old(h), mid, old(os), old(answers), old(nMmaps), nb)
    {
      r, mid := MallocAgain(nb, bytes);
      if r != 0 {
        ghost var h1, m1 := h.(live := h.live - {r - 8}), m;
        assert h1.live == old(h).live;
        assert h.live[p] == old(h).live[p];
        CopyMapped(p, r - 8, oldsize, bytes);
        ResizedLater(old(h), h1, h, old(m), m1, m, p, r, bytes);
      }
    }

    /** realloc: the block keeps its bytes up to the smaller of the two sizes. */
    method Realloc(oldmem: int, bytes: int) returns (r: int, ghost mid: Heap)
      requires Valid() && 0 <= bytes < WORD && (oldmem != 0 ==> oldmem - 8 in h.live)
      modifies this
      ensures Valid()
      ensures oldmem == 0 ==> UserSame(old(h).live, old(m), m) && Granted(old(h), h, r, bytes, Request2Size(bytes))
      ensures oldmem != 0 ==> Resized(old(h), h, old(m), m, oldmem - 8, r, bytes)
      ensures oldmem != 0 && !RequestOutOfRange(bytes) ==>
        oldmem - 4 + Request2Size(bytes) <= old(h).live[oldmem - 8].end ==> r == oldmem
      ensures r == 0 && !RequestOutOfRange(bytes) ==>
        Exhausted(old(h), mid, old(os), old(answers), old(nMmaps), Request2Size(bytes))
    {
      mid := h;
      if oldmem == 0 {
        ghost var how;
        r, how, mid := Malloc(bytes);
        return;
      }
      var p := oldmem - 8;
      if RequestOutOfRange(bytes) {
        r := 0;
        return;
      }
      Request2SizeIsLeast(bytes, 0);
      var nb := Request2Size(bytes);
      BlockTags(m, h, fastbins, p);
      if !IsMmapped(m, p) {
        r, mid := ReallocChunk(p, nb, bytes);
      } else {
        r, mid := ReallocMapped(p, nb, bytes);
      }
    }

    // ----- memalign -----

    /** Cut the leading bytes off block p and free them; the rest is the new block. */
    method GiveBackLeader(p: int, size: int, lead: int, ghost bytes: int)
      requires Ready() && p in h.live && p !in h.mm && p in h.c && size == h.c[p].size
      requires lead % 8 == 0 && MINSIZE <= lead && lead + MINSIZE <= size && 0 <= bytes && bytes + 4 <= size - lead
      modifies `m, `h, `top, `fastbins, `maxFast
      ensures Ready() && UserSame(old(h).live - {p}, old(m), m) && h.mm == old(h).mm
      ensures h.live == (old(h).live - {p})[p + lead := Block(bytes, old(h).live[p].end)]
      ensures p + lead !in old(h).live && p + lead !in h.mm
    {
      ghost var others := h.live - {p};
      SplitOffLeader(p, size, lead, bytes);
      ghost var m1 := m;
      Disown(p);
      assert h.live == others[p + lead := Block(bytes, old(h).live[p].end)];
      ghost var live2 := h.live;
      FreeChunk(p);
      SameForFewer(others, live2, m1, m);
      SameTwice(others, old(m), m1, m);
    }

    /** The program gives up block p; its chunk stays in use. */
    ghost method Disown(p: int)
      requires Ready() && p in h.live && p !in h.mm
      modifies `h
      ensures ReadyBut({p}) && h == DropLive(old(h), p) && Loose(h, p) && h.c[p].kind.Used?
    {
      assert LiveSound(h, p);
      DropLiveAll(m, h, fastbins, p, {});
      assert {} + {p} == {p};
      h := DropLive(h, p);
    }

    /** Two blocks out of one: the leader, which nobody asked for, and the rest. */
    method SplitOffLeader(p: int, size: int, lead: int, ghost bytes: int)
      requires Ready() && p in h.live && p !in h.mm && p in h.c && size == h.c[p].size
      requires lead % 8 == 0 && MINSIZE <= lead && lead + MINSIZE <= size && 0 <= bytes && bytes + 4 <= size - lead
      modifies `m, `h
      ensures Ready() && UserSame(old(h).live - {p}, old(m), m) && h.mm == old(h).mm
      ensures h.live == (old(h).live - {p})[p := Block(0, p + lead + 4)][p + lead := Block(bytes, old(h).live[p].end)]
      ensures p + lead !in old(h).live && p + lead !in h.mm
    {
      assert Sound(h.c, p) && LiveSound(h, p);
      Disown(p);
      StretchNone(h, p);
      FinishCut(p, size, lead, h.c, {p}, 0);
      AdoptTail(p + lead, bytes);
    }

    /** The loose used chunk q becomes a block. */
    ghost method AdoptTail(q: int, bytes: int)
      requires ReadyBut({q}) && Loose(h, q) && h.c[q].kind.Used? && 0 <= bytes && bytes + 4 <= h.c[q].size
      modifies `h
      ensures Ready() && h == AddLive(old(h), q, bytes) && q !in h.mm
    {
      AddLiveAll(m, h, fastbins, q, bytes, {q});
      assert {q} - {q} == {};
      ChunkNotMapped(h, q);
      h := AddLive(h, q, bytes);
    }

    /** set_head(remainder, ...), set_head_size(p, nb) */
    method WriteTailTags(p: int, size: int, nb: int)
      requires p + size + 4 in m && m[p + size + 4] == WithPrevInuse(Head(m, p + size)) && 0 < nb < size
      modifies `m
      ensures m == old(m)[p + 4 := nb + Head(old(m), p) % 2][p + nb + 4 := size - nb + 1]
        [p + size + 4 := WithPrevInuse(Head(old(m), p + size))]
    {
      m := m[p + nb + 4 := size - nb + 1];
      m := m[p + 4 := nb + Head(m, p) % 2];
    }

    /** Cut the spare bytes at the end of block p off and free them. */
    method GiveBackTail(p: int, size: int, nb: int, ghost bytes: int)
      requires Ready() && p in h.live && p !in h.mm && p in h.c && size == h.c[p].size
      requires nb % 8 == 0 && MINSIZE <= nb && nb + MINSIZE < size && 0 <= bytes && bytes + 4 <= nb
      modifies `m, `h, `top, `fastbins, `maxFast
      ensures Ready() && UserSame(old(h).live - {p}, old(m), m) && h.mm == old(h).mm
      ensures h.live == (old(h).live - {p})[p := Block(bytes, p + nb + 4)]
    {
      CutTail(p, size, nb, bytes);
      ghost var m1, live1 := m, h.live;
      FreeChunk(p + nb);
      SameForFewer(old(h).live - {p}, live1, m1, m);
      SameTwice(old(h).live - {p}, old(m), m1, m);
    }

    method CutTail(p: int, size: int, nb: int, ghost bytes: int)
      requires Ready() && p in h.live && p !in h.mm && p in h.c && size == h.c[p].size
      requires nb % 8 == 0 && MINSIZE <= nb && nb + MINSIZE < size && 0 <= bytes && bytes + 4 <= nb
      modifies `m, `h
      ensures ReadyBut({p + nb}) && UserSame(old(h).live - {p}, old(m), m) && h.mm == old(h).mm
      ensures h.live == (old(h).live - {p})[p := Block(bytes, p + nb + 4)]
      ensures Loose(h, p + nb) && h.c[p + nb].kind.Used?
    {
      CutBlockAll(m, h, fastbins, p, nb, bytes);
      WriteTailTags(p, size, nb);
      h := AddLive(DropLive(h, p).(c := Cut(h.c, p, nb)), p, bytes);
    }

    /** For mapped chunks, just adjust the offset. */
    method SlideMapped(p: int, b: int, ghost bytes: int)
      requires Ready() && p in h.mm && p in h.live && b % 8 == 0 && p < b
      requires b + MAX_FAST < h.live[p].end && 0 <= bytes && b + 8 + bytes <= h.live[p].end
      modifies `m, `h
      ensures Ready() && UserSame(old(h).live - {p}, old(m), m)
      ensures h.live == (old(h).live - {p})[b := Block(bytes, old(h).live[p].end)]
      ensures b !in old(h).live && b in h.mm
    {
      BlockTags(m, h, fastbins, p);
      SlideAll(m, h, fastbins, p, b, bytes);
      var newsize := ChunkSize(m, p) - (b - p);
      m := m[b := Foot(m, p) + (b - p)];
      m := m[b + 4 := newsize + 2];
      h := Slide(h, p, b, bytes);
    }

    /** An aligned spot inside block p. */
    method SpotIn(p: int, a: nat) returns (b: nat)
      requires Ready() && p in h.live && p % 8 == 0 && LOW <= p && (p in h.mm ==> h.mm[p].base == p)
      requires PowerOfTwo(a) && MINSIZE <= a && p + 8 + a + 2 * MINSIZE <= h.live[p].end
      ensures p + MINSIZE <= b <= p + a + 8 && b % 8 == 0 && (b - p) % 8 == 0 && Multiple(b + 8, a)
      ensures p in h.mm ==> b + MAX_FAST < h.live[p].end
    {
      BlockBelowWord(h, p);
      if p in h.mm { MappingPages(h, p); }
      ghost var len := h.live[p].end - p;
      b := ChooseSpotAt(p, a, len);
    }

    /** Find an aligned spot inside block p and give back what precedes it. */
    method AlignBlock(p: int, a: nat, ghost nb: int, ghost bytes: int) returns (b: int)
      requires Ready() && p in h.live && p % 8 == 0 && LOW <= p && (p in h.mm ==> h.mm[p].base == p)
      requires PowerOfTwo(a) && MINSIZE <= a
      requires 0 <= bytes && bytes + 4 <= nb && MINSIZE <= nb && p + 8 + nb + a + MINSIZE <= h.live[p].end
      modifies `m, `h, `top, `fastbins, `maxFast
      ensures Ready() && UserSame(old(h).live - {p}, old(m), m)
      ensures LOW <= b && b % 8 == 0 && Multiple(b + 8, a) && b !in old(h).live && (b in h.mm <==> p in old(h).mm)
      ensures h.live == (old(h).live - {p})[b := Block(bytes, old(h).live[p].end)]
      ensures b + nb + 4 <= old(h).live[p].end
    {
      BlockTags(m, h, fastbins, p);
      b := SpotIn(p, a);
      if IsMmapped(m, p) {
        SlideMapped(p, b, bytes);
      } else {
        GiveBackLeader(p, ChunkSize(m, p), b - p, bytes);
      }
    }

    /** malloc, with the reason of a failure. */
    method MallocPadded(padded: int, ghost req: int) returns (r: int, ghost mid: Heap)
      requires Ready() && 0 <= padded < WORD && 0 <= req && req + 4 <= Request2Size(padded)
      modifies this
      ensures Ready() && UserSame(old(h).live, old(m), m) && Granted(old(h), h, r, req, Request2Size(padded))
      ensures r == 0 ==> NoSpace(old(h), mid, old(os), old(answers), old(nMmaps), padded)
    {
      ghost var how;
      r, how, mid := MallocInner(padded, req);
    }

    /** Allocate with worst case padding, then align and trim. */
    method MemalignInner(a: nat, bytes: int) returns (r: nat, ghost mid: Heap)
      requires Ready() && 0 <= bytes && !RequestOutOfRange(bytes)
      requires PowerOfTwo(a) && MINSIZE <= a && Request2Size(bytes) + a + MINSIZE < WORD
      modifies this
      ensures Ready() && UserSame(old(h).live, old(m), m) && AlignedGrant(old(h), h, r, a, bytes, Request2Size(bytes))
      ensures r == 0 ==> NoSpace(old(h), mid, old(os), old(answers), old(nMmaps), Request2Size(bytes) + a + MINSIZE)
    {
      Request2SizeIsLeast(bytes, 0);
      var nb := Request2Size(bytes);
      Request2SizeIsLeast(nb + a + MINSIZE, 0);
      var mem;
      mem, mid := MallocPadded(nb + a + MINSIZE, bytes);
      r := 0;
      if mem != 0 {
        UserWriteAbove(h, mem - 8);
        ghost var h1, m1 := h, m;
        assert h1.live - {mem - 8} == old(h).live;
        var b := AlignAndTrim(mem - 8, a, nb, bytes);
        SameTwice(old(h).live, old(m), m1, m);
        r := b + 8;
      }
    }

    /** The block at p is far larger than asked for: keep an aligned part of it. */
    method AlignAndTrim(p: int, a: nat, nb: int, ghost bytes: int) returns (b: int)
      requires Ready() && p in h.live && p % 8 == 0 && LOW <= p && (p in h.mm ==> h.mm[p].base == p)
      requires PowerOfTwo(a) && MINSIZE <= a && h.live[p].req == bytes
      requires 0 <= bytes && bytes + 4 <= nb && MINSIZE <= nb && nb % 8 == 0 &&
        p + 8 + nb + a + MINSIZE <= h.live[p].end
      modifies `m, `h, `top, `fastbins, `maxFast
      ensures Ready() && UserSame(old(h).live - {p}, old(m), m)
      ensures LOW <= b && AlignedGrant(old(h).(live := old(h).live - {p}), h, b + 8, a, bytes, nb)
    {
      b := p;
      var aligned := IsAligned(p + 8, a);
      if !aligned {
        b := AlignBlock(p, a, nb, bytes);
      }
      assert h.live - {b} == old(h).live - {p};
      ghost var m1 := m;
      TrimTail(b, nb, bytes);
      SameTwice(old(h).live - {p}, old(m), m1, m);
    }

    /** Also give back spare room at the end. */
    method TrimTail(p: int, nb: int, ghost bytes: int)
      requires Ready() && p in h.live && h.live[p].req == bytes && p + nb + 4 <= h.live[p].end
      requires 0 <= bytes && bytes + 4 <= nb && MINSIZE <= nb && nb % 8 == 0
      modifies `m, `h, `top, `fastbins, `maxFast
      ensures Ready() && UserSame(old(h).live - {p}, old(m), m) && h.mm == old(h).mm && p in h.live
      ensures h.live == (old(h).live - {p})[p := Block(bytes, h.live[p].end)]
      ensures p + nb + 4 <= h.live[p].end && (p !in h.mm ==> h.live[p].end <= p + nb + 20)
    {
      BlockTags(m, h, fastbins, p);
      if !IsMmapped(m, p) {
        var size := ChunkSize(m, p);
        if size > nb + MINSIZE {
          GiveBackTail(p, size, nb, bytes);
        }
      }
    }

    /** memalign, for an alignment its rounding loop ends on and a padded size
        that does not wrap (see RoundingEnds and PaddingHolds). */
    method Memalign(alignment: nat, bytes: int) returns (r: nat, ghost mid: Heap)
      requires Valid() && 0 <= bytes < WORD && alignment <= 0x8000_0000
      requires Request2Size(bytes) + Rounded(alignment) + MINSIZE < WORD || RequestOutOfRange(bytes) || alignment <= 8
      modifies this
      ensures Valid() && UserSame(old(h).live, old(m), m)
      ensures alignment <= 8 ==> Granted(old(h), h, r, bytes, Request2Size(bytes))
      ensures alignment > 8 ==> AlignedGrant(old(h), h, r, Rounded(alignment), bytes, Request2Size(bytes))
      ensures r == 0 && !RequestOutOfRange(bytes) ==>
        NoSpace(old(h), mid, old(os), old(answers), old(nMmaps), MemalignRequest(alignment, bytes))
    {
      mid := h;
      if alignment <= 8 {
        ghost var how;
        r, how, mid := Malloc(bytes);
        return;
      }
      var a := RoundAlignment(alignment);
      if RequestOutOfRange(bytes) {
        r := 0;
        return;
      }
      r, mid := MemalignAccepted(a, bytes);
    }

    method MemalignAccepted(a: nat, bytes: int) returns (r: nat, ghost mid: Heap)
      requires Valid() && 0 <= bytes && !RequestOutOfRange(bytes)
      requires PowerOfTwo(a) && MINSIZE <= a && Request2Size(bytes) + a + MINSIZE < WORD
      modifies this
      ensures Ready() && UserSame(old(h).live, old(m), m) && AlignedGrant(old(h), h, r, a, bytes, Request2Size(bytes))
      ensures r == 0 ==> NoSpace(old(h), mid, old(os), old(answers), old(nMmaps), Request2Size(bytes) + a + MINSIZE)
    {
      InitIfNeeded();
      ghost var m1 := m;
      r, mid := MemalignInner(a, bytes);
      SameTwice(old(h).live, old(m), m1, m);
    }
  }

  /** Divisibility in the usual sense. */
  lemma AlignedGrantDivides(h: Heap, h': Heap, r: nat, alignment: nat, req: int, nb: int)
    requires AlignedGrant(h, h', r, Rounded(alignment), req, nb)
    ensures r % Rounded(alignment) == 0
  {
    if r == 0 {
      DivUnique(0, Rounded(alignment), 0, 0);
    } else {
      MultipleIsMod(r, Rounded(alignment));
    }
  }

  lemma MappingPages(h: Heap, p: int)
    requires Inv(h) && p in h.mm && p in h.live && h.mm[p].base == p
    ensures p % PAGE == 0 && h.mm[p].len % PAGE == 0 && h.live[p].end == p + h.mm[p].len
  {
    assert MapSound(h, p) && LiveSound(h, p) && AreaOk(h, p);
  }

  /** The chunk after a block, as realloc reads it. */
  lemma NextTags(m: Mem, h: Heap, heads: seq<int>, p: int)
    requires Inv(h) && Rep(m, h, heads) && StableBut(h, {}) && p in h.live && p !in h.mm && p in h.c
    ensures var n := Next(h.c, p);
      && n in h.c && (n == h.top <==> h.c[n].kind.Top?)
      && (n == h.top ==> ChunkSize(m, n) == h.c[n].size)
      && (n != h.top && !PrevInuse(m, n + ChunkSize(m, n)) ==> h.c[n].kind.Free? && ChunkSize(m, n) == h.c[n].size)
  {
    var n := Next(h.c, p);
    assert LiveSound(h, p);
    InRegionWithNext(h, p);
    TagsRead(m, h.c, n);
    assert OnlyTop(h, n);
    assert Sound(h.c, n);
    if n != h.top { InuseBit(m, h, n); }
  }

  lemma CopiedIsResized(h1: Heap, h2: Heap, m1: Mem, m2: Mem, p: int, q: int, bytes: int, n: nat)
    requires p in h1.live && q in h1.live && q != p && LOW <= q && q % 8 == 0 && h1.live[q].req == bytes
    requires q + 8 + bytes <= h1.live[q].end && h1.live[p].end == p + 8 + 4 * n
    requires h2.live == h1.live - {p} && UserSame(h1.live - {p} - {q}, m1, m2)
    requires forall i :: 0 <= i < n ==> Rd(m2, q + 8 + 4 * i) == Rd(m1, p + 8 + 4 * i)
    ensures Resized(h1.(live := h1.live - {q}), h2, m1, m2, p, q + 8, bytes)
  {
    var others := h1.live - {q} - {p};
    assert h1.live - {p} - {q} == others;
    assert h2.live == others[q := h1.live[q]];
    forall k | 0 <= k < bytes && k % 4 == 0 && p + 8 + k < h1.live[p].end
      ensures Rd(m2, q + 8 + k) == Rd(m1, p + 8 + k)
    {
      var i := k / 4;
      assert k == 4 * i && 0 <= i < n;
      assert Rd(m2, q + 8 + 4 * i) == Rd(m1, p + 8 + 4 * i);
    }
  }

  lemma ResizedLater(h0: Heap, h1: Heap, h2: Heap, m0: Mem, m1: Mem, m2: Mem, p: int, r: int, bytes: int)
    requires p in h0.live && h1.live == h0.live && UserSame(h0.live, m0, m1) && Resized(h1, h2, m1, m2, p, r, bytes)
    ensures Resized(h0, h2, m0, m2, p, r, bytes)
  {
    if r == 0 {
      SameTwice(h0.live, m0, m1, m2);
    } else {
      SameForFewer(h0.live - {p}, h0.live, m0, m1);
      SameTwice(h0.live - {p}, m0, m1, m2);
      forall k | 0 <= k < bytes && k % 4 == 0 && p + 8 + k < h0.live[p].end ensures Rd(m2, r + k) == Rd(m0, p + 8 + k) {
        assert Rd(m1, p + 8 + k) == Rd(m0, p + 8 + k);
      }
    }
  }

  lemma MapSize(nb: int)
    requires nb % 8 == 0 && 4 * PAGE <= nb < WORD && RoundPage(nb + 11) > nb
    ensures RoundPage(nb + 11) % PAGE == 0 && nb + 11 <= RoundPage(nb + 11)
  {
    if nb + 11 < WORD { RoundPageBounds(nb + 11); }
  }

  lemma MarkCovers(bins: seq<seq<int>>, b: seq<nat>, idx: nat)
    requires MapOk(b) && CoversBins(bins, b) && idx < NBINS
    ensures idx / 32 < |b| && MapOk(Mark(b, idx)) && CoversBins(bins, Mark(b, idx)) && Marked(Mark(b, idx), idx)
  {
    MarkOk(b, idx);
    forall i: nat ensures Marked(Mark(b, idx), i) <==> Marked(b, i) || i == idx { MarkMarks(b, idx, i); }
  }

  /** A small chunk goes to the front of its bin, where all sizes are equal. */
  lemma MappedWords(size: int, words: int)
    requires size % 8 == 0 && MAX_FAST < size && words == (size - 8) / 4
    ensures 9 < words && 8 + 4 * words == size
  {
  }

  lemma DifferentBin(nb: int, size: int)
    requires nb % 8 == 0 && MINSIZE <= nb && InSmallbinRange(nb) && size % 8 == 0 && MINSIZE <= size && size != nb
    ensures BinIndex(size) != SmallbinIndex(nb)
  {
    BinIndexRange(size);
  }

  lemma SmallPlace(m: Mem, h: Heap, heads: seq<int>, idx: nat, size: int)
    requires Inv(h) && Rep(m, h, heads) && 2 <= idx < NSMALLBINS && size == 8 * idx
    ensures Fd(m, BinAt(idx)) == At(BinAt(idx), h.bins[idx], 0)
    ensures forall j :: 0 <= j < |h.bins[idx]| ==> h.bins[idx][j] in h.c && h.c[h.bins[idx][j]].size == size
  {
    BinEnds(m, h, heads, idx);
    forall j | 0 <= j < |h.bins[idx]| ensures h.bins[idx][j] in h.c && h.c[h.bins[idx][j]].size == size {
      SmallBinSize(h, idx, j);
    }
  }

  /** Served without the system. */
  predicate InHeap(how: How) { how in {FastHit, Remainder, Fit, FromTop} }

  /** An empty fastbin, or none for this size: no fast chunk has it. */
  lemma FastMiss(h: Heap, nb: int)
    requires Inv(h) && (nb <= MAX_FAST && nb % 8 == 0 && MINSIZE <= nb ==> h.fast[FastbinIndex(nb)] == [])
    requires nb % 8 == 0 && MINSIZE <= nb
    ensures NoFastHit(h.c, nb)
  {
    forall q | q in h.c && h.c[q].kind.Fast? ensures h.c[q].size != nb {
      assert InFastbin(h.c, h.fast, q) && Sound(h.c, q);
    }
  }

  lemma TidiedOrLarge(h: Heap, nb: int)
    requires Inv(h) && StableBut(h, {})
    ensures InSmallbinRange(nb) ==> Tidied(h, h, nb)
  {
    if InSmallbinRange(nb) { TidiedSelf(h, nb); }
  }

  lemma FastMissShape(c: Arena, c': Arena, nb: int)
    requires SameShape(c, c') && NoFastHit(c, nb)
    ensures NoFastHit(c', nb)
  {
    forall q | q in c' && c'[q].kind.Fast? ensures c'[q].size != nb { assert SameChunk(c[q], c'[q]); }
  }

  /** A small request that found nothing is served from the consolidated heap. */
  lemma RetryTidied(h0: Heap, h1: Heap, mid: Heap, nb: int)
    requires InSmallbinRange(nb) && Missed(h0, nb) && Consolidated(h0, h1) && Tidied(h1, mid, nb)
    ensures Tidied(h0, mid, nb)
  {
    if Refiled(h1, mid) { RefiledTwice(h0, h1, mid); }
  }

  lemma RemainderCaseHolds(h: Heap, c0: Arena, p: int, nb: int)
    requires Inv(h) && StableBut(h, {}) && SameShape(c0, h.c) && |h.bins| == NBINS && |h.bins[1]| == 1 &&
      h.bins[1][0] == p
    requires p in h.c && nb + MINSIZE < h.c[p].size && MINSIZE <= nb && InSmallbinRange(nb) &&
      h.bins[SmallbinIndex(nb)] == []
    ensures RemainderCase(c0, p, p, nb)
  {
    assert h.bins[1] == [p];
    NoExactFit(h, c0, p, nb);
    InBin(h, 1, 0);
    assert SameChunk(c0[p], h.c[p]);
  }

  /** The four link writes commute, as they hit four different words. */
  lemma LinkOrder(m: Mem, h: Heap, p: int, b: nat, k: nat)
    requires Inv(h) && Attachable(h, p, b, k)
    ensures var x, y := At(BinAt(b), h.bins[b], k - 1), At(BinAt(b), h.bins[b], k);
      m[p + 12 := x][p + 8 := y][y + 12 := p][x + 8 := p] == Wire(Wire(m, x, p), p, y)
  {
    BinNodesOk(h, b);
    NotBinned(h, p, b);
    var x, y := At(BinAt(b), h.bins[b], k - 1), At(BinAt(b), h.bins[b], k);
    assert IsNode(h.c, x) && IsNode(h.c, y) && Sound(h.c, p);
    assert p != x && p != y;
  }
}
