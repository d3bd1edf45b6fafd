/** The paged ELF loader of libc-parts/loader.c: segments may share pages, and
    every page must be allocated once. */
module ElfLoader {
  import opened Word32

  const PAGE := 4096
  const LAST_PAGE: int := 0xFFFF_F000

  type Byte = x: int | 0 <= x < 256

  function Min(a: int, b: int): int { if a < b then a else b }

  /** A program header. */
  datatype Segment = Segment(load: bool, paddr: int, offset: int, filesz: int, memsz: int, writable: bool)

  function PageOf(a: int): int { a - a % PAGE }

  // ----- what the System V ABI asks for -----

  ghost predicate In(s: Segment, a: int) { s.load && s.paddr <= a < s.paddr + s.memsz }

  ghost function SegmentByte(file: seq<Byte>, s: Segment, a: int): int {
    if 0 <= s.offset + (a - s.paddr) < |file| && a < s.paddr + s.filesz then file[s.offset + (a - s.paddr)] else 0
  }

  /** The byte the first k segments put at a, or 0 where none does. */
  ghost function Wanted(file: seq<Byte>, segs: seq<Segment>, k: nat, a: int): int
    requires k <= |segs|
  {
    if k == 0 then 0
    else if In(segs[k - 1], a) then SegmentByte(file, segs[k - 1], a)
    else Wanted(file, segs, k - 1, a)
  }

  ghost predicate Touches(s: Segment, p: int) { s.load && s.paddr < p + PAGE && p < s.paddr + s.memsz }

  ghost predicate Touched(segs: seq<Segment>, k: nat, p: int) {
    p % PAGE == 0 && exists j :: 0 <= j < k && j < |segs| && Touches(segs[j], p)
  }

  /** The source's demands on a loadable segment; the last page is excluded
      because the address of the page after it wraps to 0. */
  ghost predicate SegmentOk(file: seq<Byte>, s: Segment) {
    s.load ==>
      && 0 <= s.paddr && 0 < s.memsz && 0 <= s.filesz <= s.memsz && s.paddr + s.memsz <= LAST_PAGE
      && 0 <= s.offset && s.offset + s.filesz <= |file|
  }

  ghost predicate Apart(segs: seq<Segment>, i: int, j: int) {
    0 <= i < |segs| && 0 <= j < |segs| && i != j && segs[i].load && segs[j].load ==>
      segs[i].paddr + segs[i].memsz <= segs[j].paddr || segs[j].paddr + segs[j].memsz <= segs[i].paddr
  }

  ghost predicate Loadable(file: seq<Byte>, segs: seq<Segment>) {
    && (forall i {:trigger SegmentOk(file, segs[i])} :: 0 <= i < |segs| ==> SegmentOk(file, segs[i]))
    && (forall i, j {:trigger Apart(segs, i, j)} :: Apart(segs, i, j))
  }

  /** Wanted is what the segment that contains a says, whichever it is. */
  lemma {:induction false} WantedInSegment(file: seq<Byte>, segs: seq<Segment>, k: nat, i: nat, a: int)
    requires Loadable(file, segs) && i < k <= |segs| && In(segs[i], a)
    ensures Wanted(file, segs, k, a) == SegmentByte(file, segs[i], a)
    decreases k
  {
    if i < k - 1 {
      assert Apart(segs, i, k - 1);
      WantedInSegment(file, segs, k - 1, i, a);
    }
  }

  lemma {:induction false} WantedOutside(file: seq<Byte>, segs: seq<Segment>, k: nat, a: int)
    requires k <= |segs| && forall i :: 0 <= i < k ==> !In(segs[i], a)
    ensures Wanted(file, segs, k, a) == 0
    decreases k
  {
    if k > 0 { WantedOutside(file, segs, k - 1, a); }
  }

  /** The page address that the loop reaches after n rounds from start. */
  function Reached(start: int, n: nat): int { Wrap(start + PAGE * n) }

  lemma ReachedIsPage(start: int, n: nat)
    requires start % PAGE == 0
    ensures Reached(start, n) <= LAST_PAGE
  {
    var x := start + PAGE * n;
    var q := start / PAGE + n;
    assert x == 4096 * q;
    DivUnique(x, WORD, q / 0x10_0000, 4096 * (q % 0x10_0000));
  }

  lemma LastPageReached(start: int)
    requires start % PAGE == 0 && 0 <= start < WORD
    ensures start <= LAST_PAGE && Reached(start, (LAST_PAGE - start) / PAGE) == LAST_PAGE
  {
    var q := start / PAGE;
    assert start == 4096 * q;
  }

  /** The page loop ends, for any 32-bit fields, exactly if the 32-bit sum of
      address and size is at most the last page address. For a segment that does
      not wrap this means it ends at or below the last page, or at exactly 2^32,
      where the sum is 0 and the loop ends before its first page. */
  lemma PageLoopEnds(start: int, paddr: int, memsz: int)
    requires start % PAGE == 0 && 0 <= start < WORD && 0 <= paddr < WORD && 0 <= memsz < WORD
    ensures (exists n: nat :: Reached(start, n) >= Wrap(paddr + memsz)) <==> Wrap(paddr + memsz) <= LAST_PAGE
    ensures 0 < paddr + memsz <= WORD ==>
              (Wrap(paddr + memsz) <= LAST_PAGE <==> paddr + memsz <= LAST_PAGE || paddr + memsz == WORD)
    ensures paddr + memsz == WORD ==> Reached(start, 0) >= Wrap(paddr + memsz)
  {
    LastPageReached(start);
    forall n: nat ensures Reached(start, n) <= LAST_PAGE { ReachedIsPage(start, n); }
  }

  // ----- progress within one segment -----

  type Memory = map<int, Byte>

  function At(m: Memory, a: int): int { if a in m then m[a] else 0 }

  ghost predicate PageOk(pages: set<int>, segs: seq<Segment>, k: nat, lim: int, p: int)
    requires k <= |segs|
  {
    p in pages <==> Touched(segs, k, p) || (k < |segs| && p % PAGE == 0 && Touches(segs[k], p) && p < lim)
  }

  ghost predicate ByteOk(m: Memory, file: seq<Byte>, segs: seq<Segment>, k: nat, lim: int, a: int)
    requires k <= |segs|
  {
    At(m, a) == if k < |segs| && In(segs[k], a) && a < lim
      then SegmentByte(file, segs[k], a) else Wanted(file, segs, k, a)
  }

  /** The first k segments are loaded, and segment k as far as page lim. */
  ghost predicate Progress(pages: set<int>, m: Memory, file: seq<Byte>, segs: seq<Segment>, k: nat, lim: int) {
    && k <= |segs|
    && (forall p {:trigger PageOk(pages, segs, k, lim, p)} :: PageOk(pages, segs, k, lim, p))
    && (forall a {:trigger ByteOk(m, file, segs, k, lim, a)} :: ByteOk(m, file, segs, k, lim, a))
  }

  /** Bytes lo up to hi of the segment have been copied. */
  ghost predicate Copied(m: Memory, m': Memory, file: seq<Byte>, s: Segment, lo: int, hi: int, a: int) {
    At(m', a) == if lo <= a < hi then SegmentByte(file, s, a) else At(m, a)
  }

  ghost predicate CopiedAll(m: Memory, m': Memory, file: seq<Byte>, s: Segment, lo: int, hi: int) {
    forall a {:trigger Copied(m, m', file, s, lo, hi, a)} :: Copied(m, m', file, s, lo, hi, a)
  }

  /** One more page of segment k. */
  lemma PageDone(pages: set<int>, m: Memory, m': Memory, file: seq<Byte>, segs: seq<Segment>, k: nat, p: int,
                 lo: int, hi: int)
    requires Loadable(file, segs) && k < |segs| && segs[k].load && Progress(pages, m, file, segs, k, p)
    requires p % PAGE == 0 && Touches(segs[k], p)
    requires lo == (if p < segs[k].paddr then segs[k].paddr else p) &&
      hi == Min(p + PAGE, segs[k].paddr + segs[k].filesz)
    requires CopiedAll(m, m', file, segs[k], lo, hi)
    ensures Progress(pages + {p}, m', file, segs, k, p + PAGE)
  {
    var s, pages', lim := segs[k], pages + {p}, p + PAGE;
    forall q ensures PageOk(pages', segs, k, lim, q) {
      assert PageOk(pages, segs, k, p, q);
      if q % PAGE == 0 && p <= q < p + PAGE { SamePage(p, q); }
    }
    forall a ensures ByteOk(m', file, segs, k, lim, a) {
      assert ByteOk(m, file, segs, k, p, a) && Copied(m, m', file, s, lo, hi, a);
      assert SegmentOk(file, s);
      if In(s, a) { NothingBefore(file, segs, k, a); }
    }
  }

  lemma SamePage(p: int, q: int)
    requires p % PAGE == 0 && q % PAGE == 0 && p <= q < p + PAGE
    ensures p == q
  {
    var i, j := p / PAGE, q / PAGE;
    assert p == 4096 * i && q == 4096 * j;
  }

  /** No earlier segment has anything inside segment k. */
  lemma NothingBefore(file: seq<Byte>, segs: seq<Segment>, k: nat, a: int)
    requires Loadable(file, segs) && k < |segs| && In(segs[k], a)
    ensures Wanted(file, segs, k, a) == 0
  {
    forall i | 0 <= i < k ensures !In(segs[i], a) { assert Apart(segs, i, k); }
    WantedOutside(file, segs, k, a);
  }

  /** A page that lies inside segment k has not been allocated before. */
  lemma WholePageIsNew(pages: set<int>, m: Memory, file: seq<Byte>, segs: seq<Segment>, k: nat, p: int)
    requires Loadable(file, segs) && k < |segs| && segs[k].load && Progress(pages, m, file, segs, k, p)
    requires segs[k].paddr <= p && p + PAGE <= segs[k].paddr + segs[k].memsz
    ensures p !in pages
  {
    assert PageOk(pages, segs, k, p, p);
    forall j | 0 <= j < k && j < |segs| ensures !Touches(segs[j], p) {
      assert Apart(segs, j, k) && SegmentOk(file, segs[j]);
    }
  }

  /** Segment k is done: its last page has been passed. */
  lemma SegmentDone(pages: set<int>, m: Memory, file: seq<Byte>, segs: seq<Segment>, k: nat, lim: int, lim': int)
    requires k < |segs| && Progress(pages, m, file, segs, k, lim)
    requires segs[k].load ==> segs[k].paddr + segs[k].memsz <= lim
    requires k + 1 < |segs| && segs[k + 1].load ==>
      lim' <= segs[k + 1].paddr && lim' % PAGE == 0 && segs[k + 1].paddr < lim' + PAGE
    ensures Progress(pages, m, file, segs, k + 1, lim')
  {
    var k' := k + 1;
    forall p ensures PageOk(pages, segs, k', lim', p) {
      assert PageOk(pages, segs, k, lim, p);
      if p % PAGE == 0 && Touches(segs[k], p) { assert Touched(segs, k + 1, p); }
      if k + 1 < |segs| && p % PAGE == 0 && p < lim' && Touches(segs[k + 1], p) { PageGap(p, lim'); }
    }
    forall a ensures ByteOk(m, file, segs, k', lim', a) { assert ByteOk(m, file, segs, k, lim, a); }
  }

  lemma PageGap(p: int, q: int)
    requires p % PAGE == 0 && q % PAGE == 0 && p < q
    ensures p + PAGE <= q
  {
    var i, j := p / PAGE, q / PAGE;
    assert p == 4096 * i && q == 4096 * j;
  }

  // ----- the loader -----

  class Space {
    /** Addresses of the allocated pages, and the bytes in them; fresh pages are zeroed. */
    var pages: set<int>
    var mem: Memory
    /** Every call of the alloc callback, in order. */
    ghost var allocs: seq<int>

    ghost predicate Valid()
      reads this
    {
      && (forall i, j :: 0 <= i < j < |allocs| ==> allocs[i] != allocs[j])
      && (forall p :: p in pages <==> p in allocs)
    }

    constructor ()
      ensures Valid() && pages == {} && mem == map[]
    {
      pages, mem, allocs := {}, map[], [];
    }

    /** The alloc callback: a page must not be allocated twice. */
    method Alloc(p: int)
      requires Valid() && p % PAGE == 0 && p !in pages
      modifies `pages, `allocs
      ensures Valid() && pages == old(pages) + {p}
    {
      pages := pages + {p};
      allocs := allocs + [p];
    }

    /** memcpy of segment bytes lo up to hi into allocated pages. */
    method CopyIn(file: seq<Byte>, s: Segment, p: int, lo: int, hi: int)
      requires SegmentOk(file, s) && s.load && p in pages && s.paddr <= lo && (lo < hi ==> p <= lo && hi <= p + PAGE)
      requires hi <= s.paddr + s.filesz
      modifies `mem
      ensures CopiedAll(old(mem), mem, file, s, lo, hi)
    {
      ghost var m0 := mem;
      var a := lo;
      while a < hi
        invariant lo <= a && (a <= hi || a == lo)
        invariant CopiedAll(m0, mem, file, s, lo, a)
      {
        ghost var m1, a1 := mem, a + 1;
        mem := mem[a := file[s.offset + (a - s.paddr)]];
        forall b ensures Copied(m0, mem, file, s, lo, a1, b) { assert Copied(m0, m1, file, s, lo, a, b); }
        a := a + 1;
      }
      forall b ensures Copied(m0, mem, file, s, lo, hi, b) { assert Copied(m0, mem, file, s, lo, a, b); }
    }

    /** The first page of a segment that does not start a page. */
    method FirstPage(file: seq<Byte>, ghost segs: seq<Segment>, ghost k: nat, s: Segment)
      requires Valid() && Loadable(file, segs) && k < |segs| && segs[k] == s && s.load && s.paddr % PAGE != 0
      requires Progress(pages, mem, file, segs, k, PageOf(s.paddr))
      modifies this
      ensures Valid() && Progress(pages, mem, file, segs, k, PageOf(s.paddr) + PAGE)
    {
      assert SegmentOk(file, segs[k]);
      var offset := s.paddr % PAGE;
      var p := s.paddr - offset;
      PageOfOk(s.paddr);
      ghost var pages0, m0 := pages, mem;
      if p !in pages {
        Alloc(p);
      }
      var n := Min(PAGE - offset, s.filesz);
      var hi := s.paddr + n;
      CopyIn(file, s, p, s.paddr, hi);
      PageDone(pages0, m0, mem, file, segs, k, p, s.paddr, hi);
      assert pages == pages0 + {p};
    }

    /** A page of the loop, which starts at or after the segment. */
    method LaterPage(file: seq<Byte>, ghost segs: seq<Segment>, ghost k: nat, s: Segment, addr: int)
      requires Valid() && Loadable(file, segs) && k < |segs| && segs[k] == s && s.load
      requires addr % PAGE == 0 && s.paddr <= addr < s.paddr + s.memsz && Progress(pages, mem, file, segs, k, addr)
      modifies this
      ensures Valid() && Progress(pages, mem, file, segs, k, addr + PAGE)
    {
      assert SegmentOk(file, segs[k]);
      NextPage(addr, s.paddr + s.memsz);
      ghost var pages0, m0 := pages, mem;
      var page := false;
      if s.paddr + s.memsz < Wrap(addr + PAGE) {
        page := addr in pages;
      } else {
        WholePageIsNew(pages, mem, file, segs, k, addr);
      }
      if !page {
        Alloc(addr);
      }
      var hi := Min(addr + PAGE, s.paddr + s.filesz);
      if addr < s.paddr + s.filesz {
        assert hi == addr + Min(PAGE, s.paddr + s.filesz - addr);
        CopyIn(file, s, addr, addr, hi);
      } else {
        forall a ensures Copied(m0, mem, file, s, addr, hi, a) { }
      }
      PageDone(pages0, m0, mem, file, segs, k, addr, addr, hi);
      assert pages == pages0 + {addr};
    }

    method LoadSegment(file: seq<Byte>, ghost segs: seq<Segment>, ghost k: nat, s: Segment) returns (ghost lim: int)
      requires Valid() && Loadable(file, segs) && k < |segs| && segs[k] == s && s.load
      requires Progress(pages, mem, file, segs, k, PageOf(s.paddr))
      modifies this
      ensures Valid() && Progress(pages, mem, file, segs, k, lim) && s.paddr + s.memsz <= lim
    {
      assert SegmentOk(file, segs[k]);
      PageOfOk(s.paddr);
      var addr := s.paddr;
      if s.paddr % PAGE != 0 {
        FirstPage(file, segs, k, s);
        addr := Wrap(PageOf(s.paddr) + PAGE);
      }
      while addr < s.paddr + s.memsz
        invariant Valid() && addr % PAGE == 0 && s.paddr <= addr <= LAST_PAGE &&
          Progress(pages, mem, file, segs, k, addr)
        decreases LAST_PAGE - addr
      {
        LaterPage(file, segs, k, s, addr);
        NextPage(addr, s.paddr + s.memsz);
        addr := Wrap(addr + PAGE);
      }
      lim := addr;
    }

    /** loader_elf_load into an empty space, for i386: refused headers load
        nothing; otherwise the image is as the segments say. */
    method Load(h: Header, file: seq<Byte>, segs: seq<Segment>) returns (ok: bool, entry: int)
      requires Valid() && pages == {} && mem == map[] && Loadable(file, segs)
      modifies this
      ensures Valid() && ok == Accepted(h) && (ok ==> entry == h.entry) && (!ok ==> pages == {})
      ensures ok ==> forall p :: p in pages <==> Touched(segs, |segs|, p)
      ensures ok ==> forall a :: At(mem, a) == Wanted(file, segs, |segs|, a)
    {
      entry := 0;
      ok := false;
      if h.magic != [0x7f, 'E' as int, 'L' as int, 'F' as int] || h.kind != ET_EXEC || h.phoff == 0 {
        return;
      }
      if h.wordClass != ELFCLASS32 || h.byteOrder != ELFDATA2LSB || h.machine != EM_386 {
        return;
      }
      var i := 0;
      ghost var lim := if |segs| > 0 then PageOf(segs[0].paddr) else 0;
      StartProgress(file, segs, lim);
      while i < |segs|
        invariant 0 <= i <= |segs| && Valid() && Progress(pages, mem, file, segs, i, lim)
        invariant i < |segs| && segs[i].load ==> lim == PageOf(segs[i].paddr)
      {
        if segs[i].load {
          lim := LoadSegment(file, segs, i, segs[i]);
        }
        ghost var lim' := if i + 1 < |segs| then PageOf(segs[i + 1].paddr) else 0;
        if i + 1 < |segs| && segs[i + 1].load {
          assert SegmentOk(file, segs[i + 1]);
          PageOfOk(segs[i + 1].paddr);
        }
        SegmentDone(pages, mem, file, segs, i, lim, lim');
        lim := lim';
        i := i + 1;
      }
      forall p ensures p in pages <==> Touched(segs, |segs|, p) { assert PageOk(pages, segs, i, lim, p); }
      forall a ensures At(mem, a) == Wanted(file, segs, |segs|, a) { assert ByteOk(mem, file, segs, i, lim, a); }
      entry := h.entry;
      ok := true;
    }
  }

  const ET_EXEC := 2
  const ELFCLASS32 := 1
  const ELFDATA2LSB := 1
  const EM_386 := 3

  datatype Header = Header(magic: seq<int>, wordClass: int, byteOrder: int, kind: int, machine: int, phoff: int,
                           entry: int)

  predicate Accepted(h: Header) {
    && h.magic == [0x7f, 'E' as int, 'L' as int, 'F' as int] && h.wordClass == ELFCLASS32 && h.byteOrder == ELFDATA2LSB
    && h.kind == ET_EXEC && h.machine == EM_386 && h.phoff != 0
  }

  lemma StartProgress(file: seq<Byte>, segs: seq<Segment>, lim: int)
    requires Loadable(file, segs) && (|segs| > 0 && segs[0].load ==> lim == PageOf(segs[0].paddr))
    ensures Progress({}, map[], file, segs, 0, lim)
  {
    var pages: set<int>, m: Memory := {}, map[];
    if |segs| > 0 && segs[0].load {
      assert SegmentOk(file, segs[0]);
      PageOfOk(segs[0].paddr);
    }
    forall p ensures PageOk(pages, segs, 0, lim, p) {
      if |segs| > 0 && p % PAGE == 0 && p < lim && Touches(segs[0], p) { PageGap(p, lim); }
    }
    forall a ensures ByteOk(m, file, segs, 0, lim, a) { }
  }

  /** In the loaded image every byte of every segment is in an allocated page and
      holds the file's byte below filesz and 0 from there to memsz. */
  lemma ImageIsRight(pages: set<int>, m: Memory, file: seq<Byte>, segs: seq<Segment>, i: nat, a: int)
    requires Loadable(file, segs) && i < |segs| && In(segs[i], a)
    requires forall p :: p in pages <==> Touched(segs, |segs|, p)
    requires forall b :: At(m, b) == Wanted(file, segs, |segs|, b)
    ensures PageOf(a) in pages
    ensures a < segs[i].paddr + segs[i].filesz ==>
      0 <= segs[i].offset + (a - segs[i].paddr) < |file| && At(m, a) == file[segs[i].offset + (a - segs[i].paddr)]
    ensures a >= segs[i].paddr + segs[i].filesz ==> At(m, a) == 0
  {
    assert SegmentOk(file, segs[i]);
    PageOfOk(a);
    assert Touches(segs[i], PageOf(a));
    WantedInSegment(file, segs, |segs|, i, a);
  }

  lemma PageOfOk(a: int)
    requires 0 <= a < LAST_PAGE
    ensures PageOf(a) % PAGE == 0 && 0 <= PageOf(a) <= a < PageOf(a) + PAGE &&
      Wrap(PageOf(a) + PAGE) == PageOf(a) + PAGE <= LAST_PAGE
    ensures (PageOf(a) + PAGE) % PAGE == 0
  {
    var q := a / PAGE;
    assert PageOf(a) == 4096 * q;
  }

  lemma NextPage(addr: int, end: int)
    requires addr % PAGE == 0 && 0 <= addr < end <= LAST_PAGE
    ensures Wrap(addr + PAGE) == addr + PAGE <= LAST_PAGE && (addr + PAGE) % PAGE == 0
  {
    var q := addr / PAGE;
    assert addr == 4096 * q;
  }
}
