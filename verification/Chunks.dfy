/** The abstract view of the arena: which chunk starts at which address, how
    big it is, what it is used for, and what its boundary tags say. */
module Chunks {
  import opened MallocSizes

  /** Used: handed out (or being moved around by the allocator);
      Fast: queued in a fastbin, still marked in use;
      Free(i): linked into bin i, or into no bin when i is 0;
      Dead: the 8 bytes lost when a 24-byte top is retired;
      Fence: the 16 bytes holding the two fenceposts at the end of a region. */
  datatype Kind = Used | Fast | Free(bin: nat) | Top | Dead | Fence

  /** psize is the size of the preceding chunk if that one is free, else 0:
      the PREV_INUSE bit and the prev_size field in one number.
      reg is the base of the region the chunk lies in. */
  datatype Chunk = Chunk(size: int, psize: int, kind: Kind, reg: int)

  type Arena = map<int, Chunk>

  const LOW := 0x2000

  ghost predicate ChunkOk(p: int, x: Chunk) {
    && p % 8 == 0 && LOW <= p && x.reg <= p
    && x.size % 8 == 0
    && (if x.kind.Dead? then x.size == 8 else MINSIZE <= x.size)
    && (x.kind.Fence? ==> x.size == 16)
    && (x.kind.Fast? ==> x.size <= MAX_FAST)
    && 0 <= x.psize
    && (x.kind.Free? || x.kind.Top? ==> x.psize == 0)
  }

  /** Top and the fenceposts end their region; every other chunk has a successor. */
  predicate Ends(x: Chunk) { x.kind.Top? || x.kind.Fence? }

  ghost predicate NextOk(c: Arena, p: int)
    requires p in c
  {
    var n := p + c[p].size;
    n in c && c[n].reg == c[p].reg && c[n].psize == if c[p].kind.Free? then c[p].size else 0
  }

  ghost predicate PrevOk(c: Arena, p: int)
    requires p in c
  {
    var q := p - c[p].psize;
    q in c && c[q].kind.Free? && c[q].size == c[p].psize
  }

  ghost predicate Sound(c: Arena, p: int)
    requires p in c
  {
    && ChunkOk(p, c[p])
    && (!Ends(c[p]) ==> NextOk(c, p))
    && (c[p].psize != 0 ==> PrevOk(c, p))
  }

  ghost predicate Apart(c: Arena, p: int, q: int) {
    p in c && q in c && p < q ==> p + c[p].size <= q
  }

  /** Chunks are disjoint, each but the last of a region is followed by another
      chunk, tags agree with the neighbour, and no free chunk borders another
      free chunk or top (both have psize 0, yet follow no free chunk). */
  ghost predicate Wf(c: Arena) {
    && (forall p {:trigger Sound(c, p)} :: p in c ==> Sound(c, p))
    && (forall p, q {:trigger Apart(c, p, q)} :: Apart(c, p, q))
  }

  ghost function Next(c: Arena, p: int): int
    requires p in c
  {
    p + c[p].size
  }

  // ----- elementary changes of the arena -----

  /** A chunk changes its role while its in-use status stays. */
  ghost function Retag(c: Arena, p: int, k: Kind): Arena
    requires p in c
  {
    c[p := c[p].(kind := k)]
  }

  /** A detached free chunk becomes used: its successor's tag is set. */
  ghost function Take(c: Arena, p: int): Arena
    requires p in c && Next(c, p) in c
  {
    var n := Next(c, p);
    c[p := c[p].(kind := Used)][n := c[n].(psize := 0)]
  }

  /** A used chunk becomes free: its successor's tag is cleared. */
  ghost function Untake(c: Arena, p: int): Arena
    requires p in c && Next(c, p) in c
  {
    var n := Next(c, p);
    c[p := c[p].(kind := Free(0))][n := c[n].(psize := c[p].size)]
  }

  /** Cut a chunk after nb bytes; the tail inherits the chunk's kind. */
  ghost function Cut(c: Arena, p: int, nb: int): Arena
    requires p in c
  {
    c[p := c[p].(size := nb, kind := Used)][p + nb := Chunk(c[p].size - nb, 0, c[p].kind, c[p].reg)]
  }

  /** Glue a used chunk and its used (or top) successor together. */
  ghost function Join(c: Arena, p: int): Arena
    requires p in c && Next(c, p) in c
  {
    var n := Next(c, p);
    (c - {n})[p := c[p].(size := c[p].size + c[n].size, kind := c[n].kind)]
  }

  lemma RetagWf(c: Arena, p: int, k: Kind)
    requires Wf(c) && p in c
    requires if c[p].kind.Free? then k.Free? else (c[p].kind.Used? || c[p].kind.Fast?) && (k.Used? || k.Fast?)
    requires k.Fast? ==> c[p].size <= MAX_FAST
    ensures Wf(Retag(c, p, k))
  {
    var c' := Retag(c, p, k);
    forall q | q in c' ensures Sound(c', q) {
      assert Sound(c, q);
    }
    forall x, y ensures Apart(c', x, y) {
      assert Apart(c, x, y);
    }
  }

  lemma TakeWf(c: Arena, p: int)
    requires Wf(c) && p in c && c[p].kind.Free?
    ensures Next(c, p) in c && Wf(Take(c, p))
  {
    assert Sound(c, p);
    var c' := Take(c, p);
    forall q | q in c' ensures Sound(c', q) {
      assert Sound(c, q);
      assert Apart(c, q, p) && Apart(c, p, q);
    }
    forall x, y ensures Apart(c', x, y) {
      assert Apart(c, x, y);
    }
  }

  lemma UntakeWf(c: Arena, p: int)
    requires Wf(c) && p in c && c[p].kind.Used? && c[p].psize == 0
    requires Next(c, p) in c && !c[Next(c, p)].kind.Free? && !c[Next(c, p)].kind.Top?
    ensures Wf(Untake(c, p))
  {
    assert Sound(c, p);
    var c' := Untake(c, p);
    forall q | q in c' ensures Sound(c', q) {
      assert Sound(c, q);
      assert Apart(c, q, p) && Apart(c, p, q);
    }
    forall x, y ensures Apart(c', x, y) {
      assert Apart(c, x, y);
    }
  }

  lemma CutWf(c: Arena, p: int, nb: int)
    requires Wf(c) && p in c && (c[p].kind.Used? || c[p].kind.Top?)
    requires nb % 8 == 0 && MINSIZE <= nb && nb + MINSIZE <= c[p].size
    ensures p + nb !in c && Wf(Cut(c, p, nb))
  {
    assert Sound(c, p) && Apart(c, p, p + nb);
    var c' := Cut(c, p, nb);
    forall q | q in c' ensures Sound(c', q) {
      if q in c {
        assert Sound(c, q);
        assert Apart(c, q, p) && Apart(c, p, q);
      }
    }
    forall x, y ensures Apart(c', x, y) {
      assert Apart(c, x, y) && Apart(c, p, y) && Apart(c, x, p) && Apart(c, p, x);
    }
  }

  ghost predicate Joinable(c: Arena, p: int) {
    && p in c && c[p].kind.Used? && Next(c, p) in c
    && (c[Next(c, p)].kind.Used? || c[Next(c, p)].kind.Top?)
    && (c[Next(c, p)].kind.Top? ==> c[p].psize == 0)
  }

  lemma JoinWf(c: Arena, p: int)
    requires Wf(c) && Joinable(c, p)
    ensures Wf(Join(c, p))
  {
    assert c[p].size > 0 by { assert Sound(c, p); }
    var n, c' := Next(c, p), Join(c, p);
    assert c'.Keys == c.Keys - {n};
    forall q | q in c' ensures Sound(c', q) {
      JoinSound(c, p, q);
    }
    forall x, y ensures Apart(c', x, y) {
      JoinApart(c, p, x, y);
    }
  }

  lemma JoinApart(c: Arena, p: int, x: int, y: int)
    requires Wf(c) && Joinable(c, p)
    ensures Apart(Join(c, p), x, y)
  {
    var n := Next(c, p);
    assert Sound(c, p);
    assert Apart(c, x, y) && Apart(c, n, y);
  }

  lemma JoinSound(c: Arena, p: int, q: int)
    requires Wf(c) && Joinable(c, p) && q in c && q != Next(c, p)
    ensures Sound(Join(c, p), q)
  {
    var n := Next(c, p);
    assert Sound(c, p) && Sound(c, n);
    if q != p {
      assert Sound(c, q);
      assert Apart(c, q, p) && Apart(c, p, q) && Apart(c, q, n) && Apart(c, n, q);
      assert q + c[q].size != n;
    }
  }

  // ----- coalescing -----

  /** A used chunk swallows its free predecessor. */
  ghost function BackMerge(c: Arena, p: int): Arena
    requires p in c && p - c[p].psize in c
  {
    var q := p - c[p].psize;
    (c - {p})[q := c[q].(size := c[q].size + c[p].size, kind := Used)]
  }

  /** A used chunk swallows its free successor. */
  ghost function ForwardMerge(c: Arena, p: int): Arena
    requires p in c && Next(c, p) in c && Next(c, Next(c, p)) in c
  {
    var n := Next(c, p);
    var e := Next(c, n);
    (c - {n})[p := c[p].(size := c[p].size + c[n].size)][e := c[e].(psize := 0)]
  }

  lemma BackMergeWf(c: Arena, p: int)
    requires Wf(c) && p in c && c[p].kind.Used? && c[p].psize != 0
    ensures p - c[p].psize in c && Wf(BackMerge(c, p))
  {
    assert Sound(c, p);
    var q := p - c[p].psize;
    TakeWf(c, q);
    JoinWf(Take(c, q), q);
    assert BackMerge(c, p) == Join(Take(c, q), q);
  }

  lemma ForwardMergeWf(c: Arena, p: int)
    requires Wf(c) && p in c && c[p].kind.Used?
    requires Next(c, p) in c && c[Next(c, p)].kind.Free?
    ensures Next(c, Next(c, p)) in c && Wf(ForwardMerge(c, p))
  {
    var n := Next(c, p);
    assert Sound(c, p) && Sound(c, n);
    TakeWf(c, n);
    JoinWf(Take(c, n), p);
    assert ForwardMerge(c, p) == Join(Take(c, n), p);
  }

  // ----- regions -----

  ghost predicate Contained(regions: map<int, int>, p: int, x: Chunk) {
    && x.reg in regions
    && p + x.size <= x.reg + regions[x.reg]
    && (Ends(x) ==> p + x.size == x.reg + regions[x.reg])
  }

  /** Every chunk lies in its region, the last one ends it, a chunk starts it. */
  ghost predicate Tiled(c: Arena, regions: map<int, int>) {
    && (forall p {:trigger Contained(regions, p, c[p])} :: p in c ==> Contained(regions, p, c[p]))
    && (forall r :: r in regions ==> r in c)
  }
}
