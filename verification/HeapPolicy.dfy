/** Which chunk serves a request, and when none does: the policy of mALLOc as a
    statement about the heap it searches. */
module HeapPolicy {
  import opened Word32
  import opened MallocSizes
  import opened Chunks
  import opened HeapState
  import opened HeapGrow
  import opened HeapSum
  import opened HeapTheory
  import opened HeapUnique

  /** Where a block came from. */
  datatype How = FastHit | Remainder | Fit | FromTop | Grown | Mapped | Failed | Rejected

  ghost predicate TopTooSmall(h: Heap, nb: int) {
    h.top in h.c ==> h.c[h.top].size < nb + MINSIZE
  }

  ghost predicate NoFastHit(c: Arena, nb: int) {
    forall q :: q in c && c[q].kind.Fast? ==> c[q].size != nb
  }

  /** The only departure from best fit: a small request with no exact fit splits
      the remainder of the previous split. */
  ghost predicate RemainderCase(c: Arena, last: int, p: int, nb: int) {
    && InSmallbinRange(nb) && p == last && p in c && c[p].kind.Free? && nb + MINSIZE < c[p].size
    && forall q :: q in c && c[q].kind.Free? ==> c[q].size != nb
  }

  // ----- the heap that is searched -----

  ghost predicate SameHoldings(h: Heap, mid: Heap) {
    && Inv(mid) && StableBut(mid, {})
    && mid.live == h.live && mid.mm == h.mm && mid.regions == h.regions
  }

  /** Only bin numbers differ. */
  ghost predicate Refiled(h: Heap, mid: Heap) {
    SameHoldings(h, mid) && SameShape(h.c, mid.c) && mid.fast == h.fast && mid.top == h.top
  }

  /** All fastbins are emptied and all free space is merged. */
  ghost predicate Consolidated(h: Heap, mid: Heap) {
    SameHoldings(h, mid) && NoFast(mid) && WallsKept(h.c, mid.c) && FreeTotal(mid.c) == FreeTotal(h.c)
  }

  /** Nothing in h can serve a request of nb bytes. */
  ghost predicate Missed(h: Heap, nb: int) {
    NoFastHit(h.c, nb) && NoneFits(h.c, nb) && TopTooSmall(h, nb)
  }

  /** mid is the heap that is searched for nb bytes: h itself for a small request;
      h with its fastbins consolidated for a large one, and for a small one that
      found nothing at first. */
  ghost predicate Tidied(h: Heap, mid: Heap, nb: int) {
    if InSmallbinRange(nb) then Refiled(h, mid) || (Consolidated(h, mid) && Missed(h, nb))
    else Consolidated(h, mid)
  }

  /** Chunk p serves nb bytes out of the heap mid. */
  ghost predicate Policy(how: How, mid: Heap, last: int, p: int, nb: int) {
    match how
    case FastHit => p in mid.c && mid.c[p].kind.Fast? && mid.c[p].size == nb
    case Remainder => NoFastHit(mid.c, nb) && RemainderCase(mid.c, last, p, nb)
    case Fit => NoFastHit(mid.c, nb) && BestFit(mid.c, p, nb)
    case FromTop => NoFastHit(mid.c, nb) && NoneFits(mid.c, nb) && p == mid.top && !TopTooSmall(mid, nb)
    case Rejected => false
    case _ => Missed(mid, nb) && NoFast(mid)
  }

  // ----- what the system is asked for -----

  /** The request is mapped on its own. */
  predicate Direct(nb: int, nMmaps: int) { nb >= 4 * PAGE && nMmaps < 65536 }

  function MapLength(nb: int): int { RoundPage(nb + 4 + ALIGN_MASK) }

  function GrowLength(nb: int): int {
    if RoundPage(nb + MINSIZE) < 16 * PAGE then 16 * PAGE else RoundPage(nb + MINSIZE)
  }

  /** The length did not wrap, and the next answer of mmap is a fresh area. */
  predicate Gives(os: map<int, int>, answers: seq<int>, nb: int, len: int) {
    len > nb && |answers| > 0 && FreshArea(os, answers[0], len)
  }

  /** The answers left after a call of mmap for len bytes, if it is made at all. */
  function Asked(answers: seq<int>, nb: int, len: int): seq<int> {
    if len > nb && |answers| > 0 then answers[1..] else answers
  }

  predicate MapGives(os: map<int, int>, answers: seq<int>, nMmaps: int, nb: int) {
    Direct(nb, nMmaps) && Gives(os, answers, nb, MapLength(nb))
  }

  predicate GrowGives(os: map<int, int>, answers: seq<int>, nMmaps: int, nb: int) {
    Gives(os, if Direct(nb, nMmaps) then Asked(answers, nb, MapLength(nb)) else answers, nb, GrowLength(nb))
  }

  /** What the system did about the request: a mapping of its own if it may have
      one and mmap gives it, else a new top if mmap gives that, else nothing. */
  ghost predicate System(how: How, os: map<int, int>, answers: seq<int>, nMmaps: int, nb: int) {
    match how
    case Mapped => MapGives(os, answers, nMmaps, nb)
    case Grown => !MapGives(os, answers, nMmaps, nb) && GrowGives(os, answers, nMmaps, nb)
    case Failed => !MapGives(os, answers, nMmaps, nb) && !GrowGives(os, answers, nMmaps, nb)
    case _ => true
  }

  /** No chunk of any heap is this large. */
  predicate Oversize(nb: int) { nb > WORD - LOW }

  /** A request of nb bytes failed: nothing in the heap could serve it, and the
      system gave nothing. */
  ghost predicate Exhausted(h: Heap, mid: Heap, os: map<int, int>, answers: seq<int>, nMmaps: int, nb: int) {
    && System(Failed, os, answers, nMmaps, nb)
    && (Oversize(nb) || (Tidied(h, mid, nb) && Policy(Failed, mid, 0, 0, nb)))
  }

  lemma OversizeFitsNowhere(h: Heap, nb: int)
    requires Inv(h) && Oversize(nb)
    ensures NoneFits(h.c, nb) && TopTooSmall(h, nb)
  {
    forall q | q in h.c ensures h.c[q].size < nb {
      assert Sound(h.c, q) && Contained(h.regions, q, h.c[q]);
      assert RegionOk(h, h.c[q].reg) && AreaOk(h, h.c[q].reg);
    }
  }

  /** The largest padded sizes, which malloc rejects when realloc passes them on
      as nb - 7, could not be served anyway. */
  lemma LargestFail(h: Heap, mid: Heap, os: map<int, int>, answers: seq<int>, nMmaps: int, nb: int)
    requires nb + MINSIZE < WORD && RequestOutOfRange(nb - ALIGN_MASK)
    ensures Exhausted(h, mid, os, answers, nMmaps, nb)
  {
    RoundPageBounds(nb + 4 + ALIGN_MASK);
    RoundPageBounds(nb + MINSIZE);
  }

  // ----- housekeeping composes -----

  lemma TidiedSelf(h: Heap, nb: int)
    requires Inv(h) && StableBut(h, {}) && (!InSmallbinRange(nb) ==> NoFast(h))
    ensures Tidied(h, h, nb)
  {
    SameShapeRefl(h.c);
  }

  lemma ShapeWalls(c: Arena, c': Arena)
    requires SameShape(c, c')
    ensures WallsKept(c, c')
  {
    forall p ensures p in KindAt(c', Dead) <==> p in KindAt(c, Dead) { if p in c { assert SameChunk(c[p], c'[p]); } }
    forall p ensures p in KindAt(c', Fence) <==> p in KindAt(c, Fence) { if p in c { assert SameChunk(c[p], c'[p]); } }
  }

  /** A refiled heap without fastbin chunks counts as consolidated. */
  lemma RefiledIsConsolidated(h: Heap, mid: Heap)
    requires Refiled(h, mid) && NoFast(mid)
    ensures Consolidated(h, mid)
  {
    ShapeSums(h.c, mid.c);
    ShapeWalls(h.c, mid.c);
  }

  lemma RefiledTwice(h0: Heap, h1: Heap, h2: Heap)
    requires Refiled(h1, h2)
    ensures Refiled(h0, h1) ==> Refiled(h0, h2)
    ensures Consolidated(h0, h1) ==> Consolidated(h0, h2)
  {
    ShapeTwice(h0.c, h1.c, h2.c);
    ShapeSums(h1.c, h2.c);
    ShapeWalls(h1.c, h2.c);
  }

  lemma RefiledThenConsolidated(h0: Heap, h1: Heap, h2: Heap)
    requires Refiled(h0, h1) && Consolidated(h1, h2)
    ensures Consolidated(h0, h2)
  {
    ShapeSums(h0.c, h1.c);
    ShapeWalls(h0.c, h1.c);
  }

  lemma MissedShape(h: Heap, mid: Heap, nb: int)
    requires SameShape(h.c, mid.c) && mid.top == h.top && Missed(mid, nb)
    ensures Missed(h, nb)
  {
    forall q | q in h.c ensures SameChunk(h.c[q], mid.c[q]) { }
  }

  lemma TidiedRefiled(h0: Heap, h1: Heap, h2: Heap, nb: int)
    requires Tidied(h0, h1, nb) && Refiled(h1, h2)
    ensures Tidied(h0, h2, nb)
  {
    RefiledTwice(h0, h1, h2);
  }

  /** Searching again what a first search has left. */
  lemma TidiedTwice(h0: Heap, h1: Heap, h2: Heap, nb: int)
    requires Tidied(h0, h1, nb) && Missed(h1, nb) && Tidied(h1, h2, nb)
    ensures Tidied(h0, h2, nb)
  {
    if Refiled(h1, h2) {
      RefiledTwice(h0, h1, h2);
    } else if Refiled(h0, h1) {
      RefiledThenConsolidated(h0, h1, h2);
      MissedShape(h0, h1, nb);
    }
  }

  // ----- the policy determines the heap it speaks of -----

  lemma ShapeSymmetric(c: Arena, c': Arena)
    requires SameShape(c, c')
    ensures SameShape(c', c)
  {
    forall p | p in c' ensures SameChunk(c'[p], c[p]) { assert SameChunk(c[p], c'[p]); }
  }

  lemma ConsolidatedUnique(h: Heap, mid: Heap, mid': Heap)
    requires Consolidated(h, mid) && Consolidated(h, mid')
    ensures SameShape(mid.c, mid'.c) && mid'.top == mid.top
  {
    MergedIsUnique(mid, mid');
  }

  /** If nothing in h serves the request, no policy but a call of the system does. */
  lemma MissedServesNot(h: Heap, mid: Heap, how: How, last: int, p: int, nb: int)
    requires Refiled(h, mid) && Missed(h, nb) && Policy(how, mid, last, p, nb)
    ensures NoFast(mid)
  {
    if p in h.c { assert SameChunk(h.c[p], mid.c[p]); }
    if h.top in h.c { assert SameChunk(h.c[h.top], mid.c[h.top]); }
  }

  /** Whatever chunks two allocations from the same heap choose, they are chosen
      from the same arrangement of chunks: the witness of the policy is unique up
      to bin numbers. */
  lemma SearchedHeapUnique(h: Heap, nb: int, last: int, mid: Heap, how: How, p: int, mid': Heap, how': How, p': int)
    requires Tidied(h, mid, nb) && Policy(how, mid, last, p, nb)
    requires Tidied(h, mid', nb) && Policy(how', mid', last, p', nb)
    ensures SameShape(mid.c, mid'.c) && mid'.top == mid.top
  {
    if Refiled(h, mid) && Refiled(h, mid') && InSmallbinRange(nb) {
      ShapeSymmetric(h.c, mid.c);
      ShapeTwice(mid.c, h.c, mid'.c);
    } else {
      ConsolidatedHere(h, nb, last, mid, how, p, mid');
      ConsolidatedHere(h, nb, last, mid', how', p', mid);
      ConsolidatedUnique(h, mid, mid');
    }
  }

  lemma ConsolidatedHere(h: Heap, nb: int, last: int, mid: Heap, how: How, p: int, other: Heap)
    requires Tidied(h, mid, nb) && Policy(how, mid, last, p, nb) && Tidied(h, other, nb)
    requires !InSmallbinRange(nb) || !Refiled(h, mid) || !Refiled(h, other)
    ensures Consolidated(h, mid)
  {
    if InSmallbinRange(nb) && Refiled(h, mid) {
      MissedServesNot(h, mid, how, last, p, nb);
      RefiledIsConsolidated(h, mid);
    }
  }

  /** So best fit means best: two best fits have the same size. */
  lemma BestIsDetermined(h: Heap, nb: int, last: int, mid: Heap, p: int, mid': Heap, p': int)
    requires Tidied(h, mid, nb) && Policy(Fit, mid, last, p, nb)
    requires Tidied(h, mid', nb) && Policy(Fit, mid', last, p', nb)
    ensures mid.c[p].size == mid'.c[p'].size
  {
    SearchedHeapUnique(h, nb, last, mid, Fit, p, mid', Fit, p');
    assert SameChunk(mid.c[p], mid'.c[p]) && SameChunk(mid.c[p'], mid'.c[p']);
  }
}
