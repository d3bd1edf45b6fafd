/** Bytes in all chunks, and bytes in chunks the program does not hold. */
module HeapSum {
  import opened MallocSizes
  import opened Chunks
  import opened HeapState
  import opened HeapSteps
  import opened HeapMerge
  import opened HeapGrow
  import opened HeapResize

  ghost function AnyBytes(x: Chunk): int { x.size }

  /** Binned, fastbin and top bytes. */
  ghost function FreeBytes(x: Chunk): int {
    if x.kind.Free? || x.kind.Fast? || x.kind.Top? then x.size else 0
  }

  ghost function Sum(c: Arena, f: Chunk -> int): int
    decreases |c|
  {
    if c == map[] then 0
    else
      assert exists p :: p in c by { NonEmpty(c); }
      var p :| p in c;
      assert |c - {p}| < |c| by { assert c.Keys == (c - {p}).Keys + {p}; }
      f(c[p]) + Sum(c - {p}, f)
  }

  lemma NonEmpty(c: Arena)
    ensures c == map[] || exists p :: p in c
  {
    assert (forall p :: p !in c) ==> c == map[];
  }

  /** Any chunk may be counted first. */
  lemma {:induction false} SumRemove(c: Arena, p: int, f: Chunk -> int)
    requires p in c
    ensures Sum(c, f) == f(c[p]) + Sum(c - {p}, f)
    decreases |c|
  {
    var q :| q in c && Sum(c, f) == f(c[q]) + Sum(c - {q}, f);
    if q != p {
      assert |c - {q}| < |c| by { assert c.Keys == (c - {q}).Keys + {q}; }
      assert |c - {p}| < |c| by { assert c.Keys == (c - {p}).Keys + {p}; }
      SumRemove(c - {q}, p, f);
      SumRemove(c - {p}, q, f);
      assert c - {q} - {p} == c - {p} - {q};
    }
  }

  lemma SumUpdate(c: Arena, p: int, x: Chunk, f: Chunk -> int)
    requires p in c
    ensures Sum(c[p := x], f) == Sum(c, f) - f(c[p]) + f(x)
  {
    SumRemove(c, p, f);
    SumRemove(c[p := x], p, f);
    assert c[p := x] - {p} == c - {p};
  }

  lemma SumAdd(c: Arena, p: int, x: Chunk, f: Chunk -> int)
    requires p !in c
    ensures Sum(c[p := x], f) == Sum(c, f) + f(x)
  {
    SumRemove(c[p := x], p, f);
    assert c[p := x] - {p} == c;
  }

  ghost function Total(c: Arena): int { Sum(c, AnyBytes) }

  ghost function FreeTotal(c: Arena): int { Sum(c, FreeBytes) }

  lemma RetagSums(c: Arena, p: int, k: Kind)
    requires p in c
    ensures Total(Retag(c, p, k)) == Total(c)
    ensures FreeTotal(Retag(c, p, k)) == FreeTotal(c) - FreeBytes(c[p]) + FreeBytes(c[p].(kind := k))
  {
    SumUpdate(c, p, c[p].(kind := k), AnyBytes);
    SumUpdate(c, p, c[p].(kind := k), FreeBytes);
  }

  lemma TakeSums(c: Arena, p: int)
    requires p in c && Next(c, p) in c && c[p].size > 0
    ensures Total(Take(c, p)) == Total(c)
    ensures FreeTotal(Take(c, p)) == FreeTotal(c) - FreeBytes(c[p])
  {
    var n := Next(c, p);
    RetagSums(c, p, Used);
    var c1 := Retag(c, p, Used);
    SumUpdate(c1, n, c1[n].(psize := 0), AnyBytes);
    SumUpdate(c1, n, c1[n].(psize := 0), FreeBytes);
  }

  lemma SplitSum(c: Arena, p: int, nb: int, f: Chunk -> int)
    requires p in c && Next(c, p) in c && 0 < nb < c[p].size && p + nb !in c
    ensures var n, rest := Next(c, p), c[p].size - nb;
      Sum(SplitFree(c, p, nb), f) == Sum(c, f) - f(c[p]) + f(c[p].(size := nb, kind := Used))
        + f(Chunk(rest, 0, Free(0), c[p].reg)) - f(c[n]) + f(c[n].(psize := rest))
  {
    var n, rest := Next(c, p), c[p].size - nb;
    var x, y := c[p].(size := nb, kind := Used), Chunk(rest, 0, Free(0), c[p].reg);
    SumUpdate(c, p, x, f);
    SumAdd(c[p := x], p + nb, y, f);
    SumUpdate(c[p := x][p + nb := y], n, c[n].(psize := rest), f);
  }

  lemma SplitSums(c: Arena, p: int, nb: int)
    requires p in c && Next(c, p) in c && 0 < nb < c[p].size && p + nb !in c && c[p].kind.Free?
    ensures Total(SplitFree(c, p, nb)) == Total(c)
    ensures FreeTotal(SplitFree(c, p, nb)) == FreeTotal(c) - nb
  {
    SplitSum(c, p, nb, AnyBytes);
    SplitSum(c, p, nb, FreeBytes);
  }

  lemma CutSums(c: Arena, p: int, nb: int)
    requires p in c && p + nb !in c && nb != 0
    ensures Total(Cut(c, p, nb)) == Total(c)
    ensures FreeTotal(Cut(c, p, nb)) ==
      FreeTotal(c) - (if c[p].kind.Free? || c[p].kind.Fast? || c[p].kind.Top? then nb else 0)
  {
    var x, y := c[p].(size := nb, kind := Used), Chunk(c[p].size - nb, 0, c[p].kind, c[p].reg);
    SumUpdate(c, p, x, AnyBytes);
    SumAdd(c[p := x], p + nb, y, AnyBytes);
    SumUpdate(c, p, x, FreeBytes);
    SumAdd(c[p := x], p + nb, y, FreeBytes);
  }

  /** Remove the chunks of a released span; what is left is the same. */
  lemma ReleaseSum(h: Heap, p: int, c': Arena, f: Chunk -> int)
    requires Inv(h) && Releasable(h, p) && !h.c[Next(h.c, p)].kind.Top? && Released(h.c, c', p)
    requires Start(h.c, p) in h.c && Start(h.c, p) <= p < Next(h.c, p) <= Stop(h.c, p)
    ensures var s, n, e := Start(h.c, p), Next(h.c, p), Stop(h.c, p);
      Sum(c', f) - f(c'[s]) - f(c'[e]) ==
        Sum(h.c, f) - f(h.c[p]) - f(h.c[e]) - (if s != p then f(h.c[s]) else 0) - (if n != e then f(h.c[n]) else 0)
  {
    var s, n, e := Start(h.c, p), Next(h.c, p), Stop(h.c, p);
    SumRemove(c', s, f);
    SumRemove(c' - {s}, e, f);
    SpanSum(h.c, f, s, p, n, e);
    SpanLeftover(h, p, c');
  }

  lemma SpanSum(c: Arena, f: Chunk -> int, s: int, p: int, n: int, e: int)
    requires s in c && p in c && n in c && e in c && s <= p < n <= e
    ensures Sum(c, f) == Sum(c - {p} - {e} - {s} - {n}, f)
      + f(c[p]) + f(c[e]) + (if s != p then f(c[s]) else 0) + (if n != e then f(c[n]) else 0)
  {
    SumRemove(c, p, f);
    SumRemove(c - {p}, e, f);
    var c2 := c - {p} - {e};
    if s != p { SumRemove(c2, s, f); } else { assert c2 - {s} == c2; }
    var c3 := c2 - {s};
    if n != e { SumRemove(c3, n, f); } else { assert c3 - {n} == c3; }
  }

  lemma SpanLeftover(h: Heap, p: int, c': Arena)
    requires Inv(h) && Releasable(h, p) && Released(h.c, c', p)
    requires Start(h.c, p) in h.c && Start(h.c, p) <= p < Next(h.c, p) <= Stop(h.c, p)
    ensures var s, n, e := Start(h.c, p), Next(h.c, p), Stop(h.c, p);
      c' - {s} - {e} == h.c - {p} - {e} - {s} - {n}
  {
    var s, n, e := Start(h.c, p), Next(h.c, p), Stop(h.c, p);
    assert Sound(h.c, p);
    forall x | x in h.c && s <= x <= e ensures x == s || x == p || x == n || x == e {
      assert Apart(h.c, s, x) && Apart(h.c, p, x) && Apart(h.c, n, x);
    }
    var a, b := c' - {s} - {e}, h.c - {p} - {e} - {s} - {n};
    forall x ensures x in a <==> x in b { }
    assert a.Keys == b.Keys;
  }

  lemma ReleaseSums(h: Heap, p: int, c': Arena)
    requires Inv(h) && Releasable(h, p) && !h.c[Next(h.c, p)].kind.Top? && Released(h.c, c', p)
    requires Start(h.c, p) in h.c && Start(h.c, p) <= p < Next(h.c, p) <= Stop(h.c, p)
    ensures Total(c') == Total(h.c) && FreeTotal(c') == FreeTotal(h.c) + h.c[p].size
  {
    assert Sound(h.c, p);
    ReleaseSum(h, p, c', AnyBytes);
    ReleaseSum(h, p, c', FreeBytes);
    var n := Next(h.c, p);
    assert Sound(h.c, n);
  }

  lemma ReleaseTopSum(h: Heap, p: int, c': Arena, f: Chunk -> int)
    requires Inv(h) && BordersTop(h, p) && ToppedUp(h.c, c', p)
    requires Start(h.c, p) in h.c && Start(h.c, p) <= p
    ensures var s, n := Start(h.c, p), Next(h.c, p);
      Sum(c', f) - f(c'[s]) == Sum(h.c, f) - f(h.c[p]) - f(h.c[n]) - (if s != p then f(h.c[s]) else 0)
  {
    var s, n := Start(h.c, p), Next(h.c, p);
    assert n != p by { assert Sound(h.c, p); }
    SumRemove(c', s, f);
    SumRemove(h.c, p, f);
    SumRemove(h.c - {p}, n, f);
    var c2 := h.c - {p} - {n};
    if s != p { SumRemove(c2, s, f); } else { assert c2 - {s} == c2; }
    TopSpanLeftover(h, p, c');
  }

  lemma TopSpanLeftover(h: Heap, p: int, c': Arena)
    requires Inv(h) && BordersTop(h, p) && ToppedUp(h.c, c', p)
    requires Start(h.c, p) in h.c && Start(h.c, p) <= p
    ensures c' - {Start(h.c, p)} == h.c - {p} - {Next(h.c, p)} - {Start(h.c, p)}
  {
    var s, n := Start(h.c, p), Next(h.c, p);
    var e := Next(h.c, n);
    assert Sound(h.c, p) && Sound(h.c, n);
    forall x | x in h.c && s <= x < e ensures x == s || x == p || x == n {
      assert Apart(h.c, s, x) && Apart(h.c, p, x) && Apart(h.c, n, x);
    }
    var a, b := c' - {s}, h.c - {p} - {n} - {s};
    forall x ensures x in a <==> x in b { }
    assert a.Keys == b.Keys;
  }

  lemma ReleaseTopSums(h: Heap, p: int, c': Arena)
    requires Inv(h) && BordersTop(h, p) && ToppedUp(h.c, c', p)
    requires Start(h.c, p) in h.c && Start(h.c, p) <= p
    ensures Total(c') == Total(h.c) && FreeTotal(c') == FreeTotal(h.c) + h.c[p].size
  {
    assert Sound(h.c, p);
    ReleaseTopSum(h, p, c', AnyBytes);
    ReleaseTopSum(h, p, c', FreeBytes);
  }

  lemma RetireSums(c: Arena, p: int)
    requires p in c && c[p].kind.Top? && c[p].size >= 16 && (c[p].size > 16 ==> p + c[p].size - 16 !in c)
    ensures Total(Retire(c, p)) == Total(c) && FreeTotal(Retire(c, p)) == FreeTotal(c) - c[p].size
  {
    var s := c[p].size;
    if s == 16 {
      RetagSums(c, p, Fence);
    } else {
      var x, y := c[p].(size := s - 16, kind := if s == 24 then Dead else Used), Chunk(16, 0, Fence, c[p].reg);
      SumUpdate(c, p, x, AnyBytes);
      SumAdd(c[p := x], p + s - 16, y, AnyBytes);
      SumUpdate(c, p, x, FreeBytes);
      SumAdd(c[p := x], p + s - 16, y, FreeBytes);
    }
  }

  lemma NewTopSums(h: Heap, a: int, len: int)
    requires a !in h.c
    ensures Total(NewTop(h, a, len).c) == Total(h.c) + len && FreeTotal(NewTop(h, a, len).c) == FreeTotal(h.c) + len
  {
    SumAdd(h.c, a, Chunk(len, 0, Top, a), AnyBytes);
    SumAdd(h.c, a, Chunk(len, 0, Top, a), FreeBytes);
  }

  lemma JoinSums(c: Arena, p: int)
    requires p in c && Next(c, p) in c && Next(c, p) != p && c[p].kind.Used? && c[Next(c, p)].kind.Used?
    ensures Total(Join(c, p)) == Total(c) && FreeTotal(Join(c, p)) == FreeTotal(c)
  {
    var n := Next(c, p);
    var x := c[p].(size := c[p].size + c[n].size, kind := c[n].kind);
    SumRemove(c, n, AnyBytes);
    SumUpdate(c - {n}, p, x, AnyBytes);
    SumRemove(c, n, FreeBytes);
    SumUpdate(c - {n}, p, x, FreeBytes);
  }

  lemma ForwardMergeTotal(c: Arena, p: int)
    requires p in c && Next(c, p) in c && Next(c, Next(c, p)) in c && c[p].size > 0 && c[Next(c, p)].size > 0
    ensures Total(ForwardMerge(c, p)) == Total(c)
  {
    var n := Next(c, p);
    var e := Next(c, n);
    var x := c[p].(size := c[p].size + c[n].size);
    SumRemove(c, n, AnyBytes);
    var c1 := c - {n};
    SumUpdate(c1, p, x, AnyBytes);
    var c2 := c1[p := x];
    assert e in c2 && c2[e] == c[e];
    SumUpdate(c2, e, c[e].(psize := 0), AnyBytes);
  }

  lemma ShiftTopTotal(c: Arena, p: int, nb: int)
    requires p in c && Next(c, p) in c && c[p].size > 0 && 0 < nb
    requires p + nb == Next(c, p) || p + nb !in c
    ensures Total(ShiftTop(c, p, nb)) == Total(c)
  {
    var n := Next(c, p);
    var x, y := c[p].(size := nb), Chunk(n + c[n].size - p - nb, 0, Top, c[p].reg);
    SumRemove(c, n, AnyBytes);
    SumUpdate(c - {n}, p, x, AnyBytes);
    SumAdd((c - {n})[p := x], p + nb, y, AnyBytes);
  }
}
