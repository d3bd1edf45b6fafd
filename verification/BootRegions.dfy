/** The boot loader's table of memory regions (laden/loader.c): adding a region
    may move others out of its way, bytes and all. */
module BootRegions {
  import opened Word32

  const MAX_REGIONS := 16
  const PAGE := 0x1000

  datatype Region = Region(name: string, start: int, end: int, movable: bool, used: bool, descType: int)

  /** An L4 memory descriptor; both ends are inclusive. */
  datatype Desc = Desc(conventional: bool, low: int, high: int)

  type Table = seq<Region>
  type Memory = map<int, int>

  function At(m: Memory, a: int): int { if a in m then m[a] else 0 }

  // ----- intervals -----

  /** The overlap test for a new region: it also fires when the new region ends
      where the other one starts. */
  predicate Conflicts(start: int, end: int, x: Region) {
    || (start >= x.start && start < x.end)
    || (end >= x.start && end <= x.end)
    || (start < x.start && end > x.start)
  }

  ghost predicate Disjoint(s: int, e: int, x: Region) { e <= x.start || x.end <= s }

  /** Used regions are disjoint as half-open intervals. */
  ghost predicate Apart(t: Table, i: int, j: int) {
    0 <= i < |t| && 0 <= j < |t| && i != j && t[i].used && t[j].used ==> Disjoint(t[i].start, t[i].end, t[j])
  }

  ghost predicate Proper(t: Table, i: int) {
    0 <= i < |t| && t[i].used ==> 0 <= t[i].start < t[i].end < WORD
  }

  /** Passing the test means being disjoint; failing it means overlapping or touching. */
  lemma ConflictTest(start: int, end: int, x: Region)
    requires start < end && x.start < x.end
    ensures !Conflicts(start, end, x) ==> Disjoint(start, end, x)
    ensures Conflicts(start, end, x) ==> !Disjoint(start, end, x) || end == x.start
  {
  }

  // ----- the search for a new place -----

  /** The test of the search: do the closed intervals [ns, last] and x meet? */
  predicate InWay(ns: int, last: int, x: Region) {
    || (ns >= x.start && ns <= x.end)
    || (last >= x.start && last <= x.end)
    || (ns < x.start && last >= x.start)
  }

  ghost predicate Meets(ns: int, len: int, x: Region) { ns <= x.end && x.start <= ns + len }

  lemma InWayIsMeeting(ns: int, len: int, x: Region)
    requires 0 <= len && x.start <= x.end
    ensures InWay(ns, ns + len, x) <==> Meets(ns, len, x)
  {
  }

  /** (end + 1 + 0xfff) & ~0xfff on 32-bit words. */
  function PageAfter(e: int): int {
    var x := Wrap(e + 1 + 0xfff);
    x - x % PAGE
  }

  /** A restart advances exactly if the sum does not wrap. */
  lemma RestartAdvances(e: int)
    requires 0 <= e < WORD
    ensures PageAfter(e) > e <==> e + PAGE < WORD
    ensures e + PAGE < WORD ==> PageAfter(e) % PAGE == 0 && PageAfter(e) <= e + PAGE
  {
    if e + PAGE < WORD {
      var x := e + PAGE;
      assert Wrap(x) == x;
      assert (x - x % PAGE) % PAGE == 0;
    } else {
      assert Wrap(e + PAGE) == e + PAGE - WORD;
    }
  }

  /** An address the search may settle on: the low end or a later page. */
  ghost predicate Candidate(low: int, x: int) { x == low || (low < x && x % PAGE == 0) }

  ghost predicate Clear(t: Table, i: int, x: int, len: int, k: int) {
    0 <= k < |t| && k != i && t[k].used ==> !Meets(x, len, t[k])
  }

  /** At x, region i would meet no other used region. */
  ghost predicate Free(t: Table, i: int, x: int, len: int) {
    forall k {:trigger Clear(t, i, x, len, k)} :: Clear(t, i, x, len, k)
  }

  ghost predicate Taken(t: Table, i: int, low: int, x: int, len: int) {
    Candidate(low, x) ==> !Free(t, i, x, len)
  }

  /** No candidate below x is free. */
  ghost predicate NoneBelow(t: Table, i: int, low: int, x: int, len: int) {
    forall y {:trigger Taken(t, i, low, y, len)} :: y < x ==> Taken(t, i, low, y, len)
  }

  /** Region k blocks ns and with it every candidate up to the page after k. */
  lemma SkipsOnlyTaken(t: Table, i: int, low: int, ns: int, len: int, k: int)
    requires 0 <= k < |t| && k != i && t[k].used && Meets(ns, len, t[k]) && NoneBelow(t, i, low, ns, len)
    requires 0 <= t[k].end && t[k].end + PAGE < WORD && Candidate(low, ns)
    ensures NoneBelow(t, i, low, PageAfter(t[k].end), len) && Candidate(low, PageAfter(t[k].end)) &&
      ns < PageAfter(t[k].end)
  {
    var e := t[k].end;
    RestartAdvances(e);
    forall y | y < PageAfter(e) ensures Taken(t, i, low, y, len) {
      if y < ns {
        assert Taken(t, i, low, y, len);
      } else if Candidate(low, y) {
        if y != ns { PageBelow(y, e); }
        assert !Clear(t, i, y, len, k);
      }
    }
  }

  lemma PageBelow(y: int, e: int)
    requires y % PAGE == 0 && 0 <= e && e + PAGE < WORD && y < PageAfter(e)
    ensures y <= e
  {
    RestartAdvances(e);
    var p := PageAfter(e);
    var a, b := y / PAGE, p / PAGE;
    assert y == PAGE * a && p == PAGE * b;
  }

  // ----- what keeps 32-bit sums from wrapping -----

  ghost predicate BelowLimit(t: Table, limit: int, i: int) {
    0 <= i < |t| && t[i].used ==> t[i].end <= limit && limit + PAGE + (t[i].end - t[i].start) < WORD
  }

  ghost predicate DescOk(ds: seq<Desc>, limit: int, j: int) {
    0 <= j < |ds| && ds[j].conventional ==> 0 <= ds[j].low <= ds[j].high <= limit
  }

  /** All regions and all conventional memory end at or below limit, and every
      region still fits into the address space when placed a page above it. */
  ghost predicate Roomy(t: Table, ds: seq<Desc>, limit: int) {
    && (forall i {:trigger BelowLimit(t, limit, i)} :: BelowLimit(t, limit, i))
    && (forall j {:trigger DescOk(ds, limit, j)} :: DescOk(ds, limit, j))
  }

  ghost predicate TableOk(t: Table, nr: nat) {
    && |t| == MAX_REGIONS && nr <= MAX_REGIONS
    && (forall i :: nr <= i < MAX_REGIONS ==> !t[i].used)
    && (forall i {:trigger Proper(t, i)} :: Proper(t, i))
  }

  /** A descriptor the search looks at. */
  predicate Usable(d: Desc, len: int) { d.conventional && d.high - d.low >= len + 1 }

  /** Both ends are inclusive, so this descriptor has exactly len + 1 bytes; the
      search passes it over. */
  predicate Tight(d: Desc, len: int) { d.high - d.low == len }

  /** Region i, len + 1 bytes long, fits at x: a candidate address inside a
      conventional descriptor where it meets no other used region. */
  ghost predicate Place(t: Table, ds: seq<Desc>, i: int, len: int, j: int, x: int) {
    && 0 <= j < |ds| && ds[j].conventional
    && Candidate(ds[j].low, x) && x + len <= ds[j].high && Free(t, i, x, len)
  }

  /** Where the search ends: the lowest place in the first descriptor, of those
      that are not exactly of the region's size, that has one. */
  ghost predicate Settles(t: Table, ds: seq<Desc>, i: int, len: int, j: int, ns: int) {
    && Place(t, ds, i, len, j, ns) && !Tight(ds[j], len)
    && NoneBelow(t, i, ds[j].low, ns, len) && NoneIn(t, ds, i, len, j)
  }

  ghost predicate Full(t: Table, d: Desc, i: int, len: int) {
    d.conventional && !Tight(d, len) ==> NoneBelow(t, i, d.low, d.high - len + 1, len)
  }

  /** None of the first j descriptors, bar those of exactly the region's size, has a place. */
  ghost predicate NoneIn(t: Table, ds: seq<Desc>, i: int, len: int, j: int) {
    forall n {:trigger Full(t, ds[n], i, len)} :: 0 <= n < j && n < |ds| ==> Full(t, ds[n], i, len)
  }

  /** Every place is the low end of a descriptor of exactly the region's size. */
  ghost predicate OnlyTight(t: Table, ds: seq<Desc>, i: int, len: int) {
    forall j, x {:trigger Place(t, ds, i, len, j, x)} :: Place(t, ds, i, len, j, x) ==>
      Tight(ds[j], len) && x == ds[j].low
  }

  /** The search finds nothing exactly if no descriptor other than those of the
      region's own size has a place. */
  lemma SearchFailsExactly(t: Table, ds: seq<Desc>, i: int, len: int)
    ensures NoneIn(t, ds, i, len, |ds|) <==> OnlyTight(t, ds, i, len)
  {
    if NoneIn(t, ds, i, len, |ds|) {
      forall j, x | Place(t, ds, i, len, j, x) ensures Tight(ds[j], len) && x == ds[j].low {
        assert Full(t, ds[j], i, len);
        assert Tight(ds[j], len) || Taken(t, i, ds[j].low, x, len);
      }
    }
    if OnlyTight(t, ds, i, len) {
      forall j | 0 <= j < |ds| ensures Full(t, ds[j], i, len) {
        forall y | ds[j].conventional && !Tight(ds[j], len) && y < ds[j].high - len + 1
          ensures Taken(t, i, ds[j].low, y, len)
        {
          assert !Place(t, ds, i, len, j, y);
        }
      }
    }
  }

  /** A free descriptor of exactly the region's size is a place, yet the search
      finds nothing. */
  lemma ExactSizePassedOver(t: Table, ds: seq<Desc>)
    requires t == [Region("", 0x1000, 0x1fff, true, true, -1)] && ds == [Desc(true, 0x5000, 0x5fff)]
    ensures Place(t, ds, 0, 0xfff, 0, 0x5000) && NoneIn(t, ds, 0, 0xfff, |ds|)
  {
    forall k ensures Clear(t, 0, 0x5000, 0xfff, k) { }
    assert Free(t, 0, 0x5000, 0xfff);
    assert Full(t, ds[0], 0, 0xfff);
  }

  // ----- bytes -----

  /** m with n bytes of m0 copied from one address to another. */
  function Copied(m: Memory, m0: Memory, from: int, to: int, n: int): Memory {
    if n <= 0 then m else Copied(m, m0, from, to, n - 1)[to + n - 1 := At(m0, from + n - 1)]
  }

  /** memmove (to, from, n) */
  function Moved(m: Memory, from: int, to: int, n: int): Memory { Copied(m, m, from, to, n) }

  lemma {:induction false} CopiedAt(m: Memory, m0: Memory, from: int, to: int, n: int, a: int)
    ensures At(Copied(m, m0, from, to, n), a) == if to <= a < to + n then At(m0, a - to + from) else At(m, a)
  {
    if n > 0 { CopiedAt(m, m0, from, to, n - 1, a); }
  }

  ghost predicate SameByte(m: Memory, s: int, m': Memory, s': int, d: int) { At(m', s' + d) == At(m, s + d) }

  ghost predicate SameBytes(m: Memory, s: int, m': Memory, s': int, len: int) {
    forall d {:trigger SameByte(m, s, m', s', d)} :: 0 <= d < len ==> SameByte(m, s, m', s', d)
  }

  /** Region i is the same region as before, with the same bytes, possibly elsewhere;
      it moves only if it may and only to make way for [start, end). */
  ghost predicate Kept(t0: Table, m0: Memory, t: Table, m: Memory, i: int, start: int, end: int) {
    0 <= i < |t0| && i < |t| && t0[i].used ==>
      && t[i] == t0[i].(start := t[i].start, end := t[i].start + (t0[i].end - t0[i].start))
      && SameBytes(m0, t0[i].start, m, t[i].start, t0[i].end - t0[i].start)
      && (t[i].start != t0[i].start ==> t0[i].movable && Conflicts(start, end, t0[i]))
  }

  ghost predicate AllKept(t0: Table, m0: Memory, t: Table, m: Memory, start: int, end: int) {
    |t| == |t0| && forall i {:trigger Kept(t0, m0, t, m, i, start, end)} :: Kept(t0, m0, t, m, i, start, end)
  }

  /** The table while region r is being added and the first n slots have been checked. */
  ghost predicate Adding(t: Table, r: int, n: int) {
    && (forall i, j {:trigger Apart(t, i, j)} :: i != r && j != r ==> Apart(t, i, j))
    && (forall i {:trigger Apart(t, i, r)} :: 0 <= i < n && i != r ==> Apart(t, i, r))
  }

  /** Slot r holds x, the first n slots are out of its way, and every region is
      what it was in t0, with its bytes. */
  ghost predicate Progress(t0: Table, m0: Memory, t: Table, m: Memory, r: int, x: Region, n: nat) {
    && |t| == |t0| && 0 <= r < |t| && t[r] == x
    && Adding(t, r, n) && AllKept(t0, m0, t, m, x.start, x.end)
    && (forall k :: 0 <= k < |t| && k != r ==> t[k].used == t0[k].used)
    && (forall k :: n <= k < |t| && k != r ==> t[k] == t0[k])
  }

  ghost function Put(t: Table, i: int, ns: int): Table
    requires 0 <= i < |t|
  {
    t[i := t[i].(start := ns, end := ns + (t[i].end - t[i].start))]
  }

  lemma PutApart(t: Table, i: int, ns: int, r: int)
    requires 0 <= i < |t| && i != r && t[i].used && t[i].start < t[i].end && Adding(t, r, i)
    requires Free(t, i, ns, t[i].end - t[i].start) && forall k {:trigger Proper(t, k)} :: Proper(t, k)
    ensures Adding(Put(t, i, ns), r, i + 1)
  {
    var t' := Put(t, i, ns);
    forall a, b | a != r && b != r ensures Apart(t', a, b) {
      assert Apart(t, a, b);
      assert Clear(t, i, ns, t[i].end - t[i].start, a) && Clear(t, i, ns, t[i].end - t[i].start, b);
    }
    forall a | 0 <= a < i + 1 && a != r ensures Apart(t', a, r) {
      if a != i { assert Apart(t, a, r); }
      assert Clear(t, i, ns, t[i].end - t[i].start, r);
    }
  }

  /** Moving i overwrites no byte of another used region. */
  lemma PutKept(t0: Table, m0: Memory, t: Table, m: Memory, i: int, ns: int, start: int, end: int)
    requires AllKept(t0, m0, t, m, start, end) && 0 <= i < |t| && t[i].used && t0[i].used && t[i].start < t[i].end
    requires t[i] == t0[i] && t0[i].movable && Conflicts(start, end, t0[i])
    requires Free(t, i, ns, t[i].end - t[i].start)
    ensures AllKept(t0, m0, Put(t, i, ns), Moved(m, t[i].start, ns, t[i].end - t[i].start + 1), start, end)
  {
    var len := t[i].end - t[i].start;
    var t', m' := Put(t, i, ns), Moved(m, t[i].start, ns, len + 1);
    forall k ensures Kept(t0, m0, t', m', k, start, end) {
      assert Kept(t0, m0, t, m, k, start, end);
      if 0 <= k < |t0| && t0[k].used {
        if k == i {
          forall d | 0 <= d < len ensures SameByte(m0, t0[i].start, m', ns, d) {
            assert SameByte(m0, t0[i].start, m, t[i].start, d);
            CopiedAt(m, m, t[i].start, ns, len + 1, ns + d);
          }
        } else {
          assert Clear(t, i, ns, len, k);
          forall d | 0 <= d < t0[k].end - t0[k].start ensures SameByte(m0, t0[k].start, m', t[k].start, d) {
            assert SameByte(m0, t0[k].start, m, t[k].start, d);
            CopiedAt(m, m, t[i].start, ns, len + 1, t[k].start + d);
          }
        }
      }
    }
  }

  ghost predicate SettlesAt(t: Table, ds: seq<Desc>, i: int, len: int, ns: int) {
    exists j {:trigger Settles(t, ds, i, len, j, ns)} :: Settles(t, ds, i, len, j, ns)
  }

  /** Region i is in the way and cannot be moved. */
  ghost predicate Stuck(t: Table, ds: seq<Desc>, i: int, start: int, end: int) {
    && 0 <= i < |t| && t[i].used && Conflicts(start, end, t[i])
    && (!t[i].movable || OnlyTight(t, ds, i, t[i].end - t[i].start))
  }

  // ----- does a region correspond to real memory? -----

  predicate Inside(d: Desc, start: int, end: int) {
    d.conventional && d.low <= start <= d.high && d.low <= end <= d.high
  }

  predicate Clashes(d: Desc, start: int, end: int) {
    !d.conventional && (d.low <= start <= d.high || d.low <= end <= d.high || (start < d.low && end > d.high))
  }

  /** Some conventional descriptor contains the region and no later
      non-conventional one clashes with it: earlier ones do not count. */
  ghost predicate RealMemory(ds: seq<Desc>, start: int, end: int) {
    exists j :: 0 <= j < |ds| && Inside(ds[j], start, end) && forall n :: j < n < |ds| ==> !Clashes(ds[n], start, end)
  }

  ghost predicate Backed(ds: seq<Desc>, start: int, end: int) { |ds| == 0 || RealMemory(ds, start, end) }

  ghost predicate HasRoom(t: Table) { exists i :: 0 <= i < |t| && !t[i].used }

  /** mem_check; false where the source panics. */
  method MemCheck(ds: seq<Desc>, start: int, end: int) returns (ok: bool)
    requires forall j :: 0 <= j < |ds| ==> ds[j].low <= ds[j].high
    ensures ok <==> Backed(ds, start, end)
  {
    if |ds| == 0 {
      return true;
    }
    var fits := false;
    ghost var at := 0;
    var nr := 0;
    while nr < |ds|
      invariant 0 <= nr <= |ds|
      invariant fits ==>
        0 <= at < nr && Inside(ds[at], start, end) && forall n :: at < n < nr ==> !Clashes(ds[n], start, end)
      invariant !fits ==>
        forall j :: 0 <= j < nr && Inside(ds[j], start, end) ==> exists n :: j < n < nr && Clashes(ds[n], start, end)
    {
      var d := ds[nr];
      if d.conventional {
        if start >= d.low && start <= d.high && end >= d.low && end <= d.high {
          fits := true;
          at := nr;
        }
      } else {
        if (start >= d.low && start <= d.high) || (end >= d.low && end <= d.high) || (start < d.low && end > d.high) {
          fits := false;
          assert Clashes(ds[nr], start, end);
        }
      }
      nr := nr + 1;
    }
    ok := fits;
  }

  // ----- how far mem_check can be trusted -----

  /** A region that passes clashes with no non-conventional memory. */
  ghost predicate Trustworthy(ds: seq<Desc>) {
    forall start, end, n :: start < end && RealMemory(ds, start, end) && 0 <= n < |ds| ==> !Clashes(ds[n], start, end)
  }

  predicate Covers(d: Desc, x: int) { d.low <= x <= d.high }

  predicate CoversPair(d: Desc, x: int) { Covers(d, x) && Covers(d, x + 1) }

  predicate TouchesPair(d: Desc, x: int) { !d.conventional && (Covers(d, x) || Covers(d, x + 1)) }

  /** Two neighbouring bytes of conventional descriptor k, one of them also in a
      non-conventional descriptor, all of which are listed before k. */
  ghost predicate Hole(ds: seq<Desc>, j: int, k: int, x: int) {
    && 0 <= j < k < |ds| && ds[k].conventional && CoversPair(ds[k], x) && TouchesPair(ds[j], x)
    && forall n :: k < n < |ds| ==> !TouchesPair(ds[n], x)
  }

  lemma HoleIsPassed(ds: seq<Desc>, j: int, k: int, x: int)
    requires Hole(ds, j, k, x) && forall n :: 0 <= n < |ds| ==> ds[n].low <= ds[n].high
    ensures RealMemory(ds, x, x + 1) && Clashes(ds[j], x, x + 1)
  {
    assert Inside(ds[k], x, x + 1);
    forall n | k < n < |ds| ensures !Clashes(ds[n], x, x + 1) { assert !TouchesPair(ds[n], x); }
  }

  lemma PassedHasHole(ds: seq<Desc>, start: int, end: int, j: int) returns (k: int, x: int)
    requires start < end && RealMemory(ds, start, end) && 0 <= j < |ds| && Clashes(ds[j], start, end)
    requires forall n :: 0 <= n < |ds| ==> ds[n].low <= ds[n].high
    ensures Hole(ds, j, k, x)
  {
    k :| 0 <= k < |ds| && Inside(ds[k], start, end) && forall n :: k < n < |ds| ==> !Clashes(ds[n], start, end);
    x := if Covers(ds[j], start) then start else if Covers(ds[j], end) then end - 1 else ds[j].low;
    forall n | k < n < |ds| ensures !TouchesPair(ds[n], x) { assert !Clashes(ds[n], start, end); }
  }

  /** mem_check can be trusted exactly if the map has no hole. */
  lemma TrustExactly(ds: seq<Desc>)
    requires forall n :: 0 <= n < |ds| ==> ds[n].low <= ds[n].high
    ensures Trustworthy(ds) <==> forall j, k, x :: !Hole(ds, j, k, x)
  {
    if j, k, x :| Hole(ds, j, k, x) { HoleIsPassed(ds, j, k, x); }
    forall start, end, n | start < end && RealMemory(ds, start, end) && 0 <= n < |ds| && Clashes(ds[n], start, end)
      ensures exists k, x :: Hole(ds, n, k, x)
    {
      var k, x := PassedHasHole(ds, start, end, n);
    }
  }

  /** In particular if no conventional descriptor follows a non-conventional one it meets. */
  lemma OrderedIsTrustworthy(ds: seq<Desc>)
    requires forall n :: 0 <= n < |ds| ==> ds[n].low <= ds[n].high
    requires forall j, k :: 0 <= j < k < |ds| && !ds[j].conventional && ds[k].conventional ==>
      ds[j].high < ds[k].low || ds[k].high < ds[j].low
    ensures Trustworthy(ds)
  {
    forall j, k, x ensures !Hole(ds, j, k, x) { }
    TrustExactly(ds);
  }

  /** Reserved memory inside conventional memory that is listed later goes unnoticed. */
  lemma ReservedUnnoticed(ds: seq<Desc>)
    requires ds == [Desc(false, 0, 0xfff), Desc(true, 0, 0xffff)]
    ensures RealMemory(ds, 0, 0x10) && Clashes(ds[0], 0, 0x10)
  {
    assert Inside(ds[1], 0, 0x10);
  }

  class Loader {
    const table: array<Region>
    var nr: nat
    const memoryMap: seq<Desc>
    var mem: Memory

    ghost predicate Valid()
      reads this, table
    {
      TableOk(table[..], nr) && forall i, j {:trigger Apart(table[..], i, j)} :: Apart(table[..], i, j)
    }

    constructor (ds: seq<Desc>, m: Memory)
      ensures Valid() && memoryMap == ds && mem == m && nr == 0 && fresh(table)
    {
      table := new Region[MAX_REGIONS](_ => Region("", 0, 0, false, false, -1));
      nr, memoryMap, mem := 0, ds, m;
    }

    /** The restarting search in one descriptor for len + 1 bytes. */
    method SearchDesc(i: nat, len: int, d: Desc, ghost limit: int) returns (found: bool, ns: int)
      requires TableOk(table[..], nr) && Roomy(table[..], memoryMap, limit) && i < nr && table[i].used
      requires len == table[i].end - table[i].start && Usable(d, len) && 0 <= d.low <= d.high <= limit
      ensures found ==> Candidate(d.low, ns) && ns + len <= d.high && Free(table[..], i, ns, len)
      ensures found ==> NoneBelow(table[..], i, d.low, ns, len)
      ensures !found ==> NoneBelow(table[..], i, d.low, d.high - len + 1, len)
    {
      ghost var t := table[..];
      assert BelowLimit(t, limit, i) && Proper(t, i);
      var msize := len + 1;
      var k := 0;
      ns := d.low;
      while k < nr && Wrap(ns + msize - 1) <= d.high
        invariant 0 <= k <= nr && 0 <= ns <= limit + PAGE && Candidate(d.low, ns) && NoneBelow(t, i, d.low, ns, len)
        invariant forall n {:trigger Clear(t, i, ns, len, n)} :: 0 <= n < k ==> Clear(t, i, ns, len, n)
        decreases limit + PAGE - ns, nr - k
      {
        assert BelowLimit(t, limit, k) && Proper(t, k);
        var x := table[k];
        if x.used && k != i && InWay(ns, Wrap(ns + msize - 1), x) {
          InWayIsMeeting(ns, len, x);
          SkipsOnlyTaken(t, i, d.low, ns, len, k);
          RestartAdvances(x.end);
          ns := PageAfter(x.end);
          k := 0;
        } else {
          if x.used { InWayIsMeeting(ns, len, x); }
          k := k + 1;
        }
      }
      found := k == nr && Wrap(ns + msize - 1) <= d.high;
      if found {
        forall n ensures Clear(t, i, ns, len, n) { }
      } else {
        forall y | y < d.high - len + 1 ensures Taken(t, i, d.low, y, len) { }
      }
    }

    /** Look through the memory map; j is its size if there is no place. */
    method FindPlace(i: nat, len: int, ghost limit: int) returns (j: nat, ns: int)
      requires TableOk(table[..], nr) && Roomy(table[..], memoryMap, limit) && i < nr && table[i].used
      requires len == table[i].end - table[i].start
      ensures j <= |memoryMap|
      ensures j < |memoryMap| ==> Settles(table[..], memoryMap, i, len, j, ns)
      ensures j == |memoryMap| <==> OnlyTight(table[..], memoryMap, i, len)
    {
      SearchFailsExactly(table[..], memoryMap, i, len);
      j, ns := 0, 0;
      while j < |memoryMap|
        invariant j <= |memoryMap| && NoneIn(table[..], memoryMap, i, len, j)
      {
        var d := memoryMap[j];
        assert DescOk(memoryMap, limit, j);
        if d.conventional && d.high - d.low >= len + 1 {
          var found;
          found, ns := SearchDesc(i, len, d, limit);
          if found {
            assert Place(table[..], memoryMap, i, len, j, ns);
            return;
          }
        }
        j := j + 1;
      }
    }

    /** Relocate region i, or fail where the source panics. */
    method Relocate(i: nat, ghost limit: int) returns (ok: bool, ghost ns: int)
      requires TableOk(table[..], nr) && Roomy(table[..], memoryMap, limit) && i < nr && table[i].used
      modifies table, `mem
      ensures !ok ==> table[..] == old(table[..]) && mem == old(mem)
      ensures ok <==>
        old(table[i].movable) && !OnlyTight(old(table[..]), memoryMap, i, old(table[i].end - table[i].start))
      ensures ok ==> 0 <= ns && ns + old(table[i].end - table[i].start) <= limit && old(table[i].movable)
      ensures ok ==> SettlesAt(old(table[..]), memoryMap, i, old(table[i].end - table[i].start), ns)
      ensures ok ==> table[..] == Put(old(table[..]), i, ns)
      ensures ok ==> mem == Moved(old(mem), old(table[i].start), ns, old(table[i].end - table[i].start) + 1)
    {
      ns := 0;
      var x := table[i];
      if !x.movable {
        return false, 0;
      }
      var msize := x.end - x.start + 1;
      var j, place := FindPlace(i, msize - 1, limit);
      if j == |memoryMap| {
        return false, 0;
      }
      assert DescOk(memoryMap, limit, j);
      mem := Moved(mem, x.start, place, msize);
      table[i] := x.(start := place, end := place + msize - 1);
      return true, place;
    }

    /** The slot for a new region, or MAX_REGIONS if the table is full. */
    method NewSlot() returns (r: nat)
      requires Valid()
      modifies `nr
      ensures Valid() && r <= MAX_REGIONS
      ensures r < MAX_REGIONS ==> r < nr && !table[r].used && old(nr) <= nr
      ensures r == MAX_REGIONS ==> nr == old(nr) && forall i :: 0 <= i < MAX_REGIONS ==> table[i].used
    {
      r := nr;
      if r == MAX_REGIONS {
        r := 0;
        while r < MAX_REGIONS && table[r].used
          invariant r <= MAX_REGIONS && forall i :: 0 <= i < r ==> table[i].used
        {
          r := r + 1;
        }
      } else {
        nr := nr + 1;
      }
    }

    /** Check region r, just entered, against all others and move those in its way. */
    method MakeWay(r: nat, ghost t0: Table, ghost m0: Memory, ghost limit: int) returns (ok: bool, ghost stuck: int)
      requires TableOk(table[..], nr) && Roomy(table[..], memoryMap, limit) && r < nr && table[r].used
      requires |t0| == MAX_REGIONS && !t0[r].used && table[..] == t0[r := table[r]] && mem == m0 &&
        Adding(table[..], r, 0)
      modifies table, `mem
      ensures ok ==> Valid() && Roomy(table[..], memoryMap, limit)
      ensures ok ==> table[r] == old(table[r]) && AllKept(t0, m0, table[..], mem, table[r].start, table[r].end)
      ensures ok ==> forall i :: 0 <= i < MAX_REGIONS && i != r ==> table[i].used == t0[i].used
      ensures !ok ==> 0 <= stuck < nr && Stuck(table[..], memoryMap, stuck, old(table[r].start), old(table[r].end))
    {
      StartKept(t0, m0, table[..], r, table[r].start, table[r].end);
      ghost var x := table[r];
      var i := 0;
      while i < nr
        invariant 0 <= i <= nr && TableOk(table[..], nr) && Roomy(table[..], memoryMap, limit)
        invariant Progress(t0, m0, table[..], mem, r, x, i)
      {
        ok, stuck := CheckSlot(i, r, t0, m0, x, limit);
        if !ok {
          return;
        }
        i := i + 1;
      }
      AllApart(table[..], r, nr);
      ok, stuck := true, 0;
    }

    /** If region i is in the way of region r, move it. */
    method CheckSlot(i: nat, r: nat, ghost t0: Table, ghost m0: Memory, ghost x: Region, ghost limit: int)
      returns (ok: bool, ghost stuck: int)
      requires TableOk(table[..], nr) && Roomy(table[..], memoryMap, limit) && r < nr && table[r].used && i < nr
      requires Progress(t0, m0, table[..], mem, r, x, i)
      modifies table, `mem
      ensures !ok ==> 0 <= stuck < nr && Stuck(table[..], memoryMap, stuck, x.start, x.end)
      ensures ok ==>
        TableOk(table[..], nr) && Roomy(table[..], memoryMap, limit) && Progress(t0, m0, table[..], mem, r, x, i + 1)
    {
      ghost var t, m1 := table[..], mem;
      var start, end := table[r].start, table[r].end;
      assert Proper(t, i) && Proper(t, r);
      ok, stuck := true, i;
      if i != r && table[i].used && Conflicts(start, end, table[i]) {
        ghost var ns;
        ok, ns := Relocate(i, limit);
        if ok {
          Settled(t, memoryMap, i, ns, r, limit, nr);
          PutKept(t0, m0, t, m1, i, ns, start, end);
        }
      } else {
        NotInTheWay(t, i, r);
      }
    }

    /** loader_add_region; false where the source panics. */
    method AddRegion(name: string, start: int, end: int, movable: bool, descType: int, ghost limit: int)
      returns (ok: bool, r: nat, ghost stuck: int)
      requires Valid() && Roomy(table[..], memoryMap, limit) && 0 <= start < WORD && 0 <= end < WORD
      requires forall j :: 0 <= j < |memoryMap| ==> memoryMap[j].low <= memoryMap[j].high
      requires end <= limit && limit + PAGE + (end - start) < WORD
      modifies this, table
      ensures ok ==> Valid() && Roomy(table[..], memoryMap, limit) && start < end && Backed(memoryMap, start, end)
      ensures ok ==> r < nr && !old(table[r].used) && table[r] == Region(name, start, end, movable, true, descType)
      ensures ok ==> AllKept(old(table[..]), old(mem), table[..], mem, start, end)
      ensures ok ==> forall i :: 0 <= i < MAX_REGIONS && i != r ==> table[i].used == old(table[..])[i].used
      ensures !ok && start < end && Backed(memoryMap, start, end) && HasRoom(old(table[..])) ==>
        0 <= stuck < nr && Stuck(table[..], memoryMap, stuck, start, end)
    {
      ok, r, stuck := false, 0, 0;
      if start >= end {
        return;
      }
      var there := MemCheck(memoryMap, start, end);
      if !there {
        return;
      }
      ghost var t0 := table[..];
      r := NewSlot();
      if r == MAX_REGIONS {
        return;
      }
      table[r] := Region(name, start, end, movable, true, descType);
      Entered(t0, memoryMap, table[..], r, nr, limit);
      ok, stuck := MakeWay(r, t0, mem, limit);
    }

    /** loader_remove_region; false where the source panics. */
    method RemoveRegion(name: string) returns (found: bool)
      requires Valid()
      modifies table
      ensures Valid() && (found <==> exists i :: 0 <= i < nr && old(table[..])[i].name == name)
      ensures forall i :: 0 <= i < MAX_REGIONS ==>
        table[i] == if i < nr && old(table[..])[i].name == name
          then old(table[..])[i].(used := false) else old(table[..])[i]
    {
      ghost var t0 := table[..];
      found := false;
      var i := 0;
      while i < nr
        invariant 0 <= i <= nr && (found <==> exists k :: 0 <= k < i && t0[k].name == name)
        invariant forall k :: 0 <= k < MAX_REGIONS ==>
          table[k] == if k < i && t0[k].name == name then t0[k].(used := false) else t0[k]
      {
        if table[i].name == name {
          found := true;
          table[i] := table[i].(used := false);
        }
        i := i + 1;
      }
      Fewer(t0, table[..], nr);
    }
  }

  lemma StartKept(t0: Table, m0: Memory, t: Table, r: int, start: int, end: int)
    requires 0 <= r < |t0| && !t0[r].used && |t| == |t0| && t == t0[r := t[r]]
    ensures AllKept(t0, m0, t, m0, start, end)
  {
    forall i ensures Kept(t0, m0, t, m0, i, start, end) {
      if 0 <= i < |t0| && t0[i].used {
        forall d ensures SameByte(m0, t0[i].start, m0, t[i].start, d) { }
      }
    }
  }

  /** After a move the table is as good as before, one slot further. */
  lemma Settled(t: Table, ds: seq<Desc>, i: int, ns: int, r: int, limit: int, nr: nat)
    requires TableOk(t, nr) && Roomy(t, ds, limit) && 0 <= i < nr && i != r && t[i].used && Adding(t, r, i)
    requires SettlesAt(t, ds, i, t[i].end - t[i].start, ns) && 0 <= ns && ns + (t[i].end - t[i].start) <= limit
    ensures Free(t, i, ns, t[i].end - t[i].start) && t[i].start < t[i].end
    ensures TableOk(Put(t, i, ns), nr) && Roomy(Put(t, i, ns), ds, limit) && Adding(Put(t, i, ns), r, i + 1)
  {
    assert Proper(t, i) && BelowLimit(t, limit, i);
    var t' := Put(t, i, ns);
    PutApart(t, i, ns, r);
    forall k ensures Proper(t', k) { assert Proper(t, k); }
    forall k ensures BelowLimit(t', limit, k) { assert BelowLimit(t, limit, k); }
  }

  lemma NotInTheWay(t: Table, i: int, r: int)
    requires 0 <= i < |t| && 0 <= r < |t| && Adding(t, r, i) && t[r].used && t[r].start < t[r].end
    requires i == r || !t[i].used || (t[i].start < t[i].end && !Conflicts(t[r].start, t[r].end, t[i]))
    ensures Adding(t, r, i + 1)
  {
    if i != r && t[i].used { ConflictTest(t[r].start, t[r].end, t[i]); }
    forall k | 0 <= k < i + 1 && k != r ensures Apart(t, k, r) { if k < i { assert Apart(t, k, r); } }
  }

  lemma AllApart(t: Table, r: int, nr: nat)
    requires TableOk(t, nr) && 0 <= r < nr && Adding(t, r, nr)
    ensures forall i, j {:trigger Apart(t, i, j)} :: Apart(t, i, j)
  {
    forall i, j ensures Apart(t, i, j) {
      if i != r && j == r && 0 <= i < nr { assert Apart(t, i, r); }
      if j != r && i == r && 0 <= j < nr { assert Apart(t, j, r); }
      if i != r && j != r { assert Apart(t, i, j); }
    }
  }

  lemma Entered(t0: Table, ds: seq<Desc>, t: Table, r: int, nr: nat, limit: int)
    requires TableOk(t0, nr) && Roomy(t0, ds, limit) && (forall i, j {:trigger Apart(t0, i, j)} :: Apart(t0, i, j))
    requires 0 <= r < nr && |t| == |t0| && t == t0[r := t[r]] && 0 <= t[r].start < t[r].end <= limit
    requires limit + PAGE + (t[r].end - t[r].start) < WORD
    ensures TableOk(t, nr) && Roomy(t, ds, limit) && Adding(t, r, 0)
  {
    forall i ensures Proper(t, i) { assert Proper(t0, i); }
    forall i ensures BelowLimit(t, limit, i) { assert BelowLimit(t0, limit, i); }
    forall i, j | i != r && j != r ensures Apart(t, i, j) { assert Apart(t0, i, j); }
  }

  lemma Fewer(t0: Table, t: Table, nr: nat)
    requires TableOk(t0, nr) && (forall i, j {:trigger Apart(t0, i, j)} :: Apart(t0, i, j))
    requires |t| == |t0| && forall i :: 0 <= i < |t| ==> t[i] == t0[i] || t[i] == t0[i].(used := false)
    ensures TableOk(t, nr) && (forall i, j {:trigger Apart(t, i, j)} :: Apart(t, i, j))
  {
    forall i ensures Proper(t, i) { assert Proper(t0, i); }
    forall i, j ensures Apart(t, i, j) { assert Apart(t0, i, j); }
  }
}
