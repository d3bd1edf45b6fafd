/** Whole runs: a program that allocates, resizes, frees and writes through a
    fixed number of slots, in any order. */
module MallocRun {
  import opened Word32
  import opened MallocSizes
  import opened ChunkMemory
  import opened Chunks
  import opened HeapState
  import opened HeapLists
  import opened HeapTheory
  import opened Blocks
  import opened Alignment
  import opened HeapPolicy
  import opened Malloc

  datatype Op =
    | Get(slot: nat, bytes: int)
    | GetAligned(slot: nat, alignment: nat, bytes: int)
    | Resize(slot: nat, bytes: int)
    | Put(slot: nat)
    | Store(slot: nat, word: nat, value: int)

  /** What the program remembers: a pointer, the size it asked for, the words it
      has stored there. */
  datatype Slot = Slot(mem: int, size: int, words: map<int, int>)

  const NOTHING := Slot(0, 0, map[])

  predicate Legal(op: Op) {
    match op
    case Get(_, bytes) => 0 <= bytes < WORD
    case GetAligned(_, alignment, bytes) =>
      0 <= bytes < WORD && alignment <= 0x8000_0000
      && (Request2Size(bytes) + Rounded(alignment) + MINSIZE < WORD || RequestOutOfRange(bytes) || alignment <= 8)
    case Resize(_, bytes) => 0 <= bytes < WORD
    case Put(_) => true
    case Store(_, _, _) => true
  }

  /** The words that survive a change of size. */
  function Kept(words: map<int, int>, bytes: int): map<int, int> {
    words - (set k | k in words && bytes < 4 * k + 4)
  }

  ghost predicate Renewed(s: Slot, s': Slot, bytes: int, words: map<int, int>) {
    s' == s || (s'.mem != 0 && s'.size == bytes && s'.words == words)
  }

  /** The meaning of an operation for the program: its own slot changes, and
      only as the operation says; a request may also fail and change nothing. */
  ghost predicate Stepped(op: Op, ss: seq<Slot>, ss': seq<Slot>) {
    && |ss'| == |ss|
    && (forall i :: 0 <= i < |ss| && i != op.slot ==> ss'[i] == ss[i])
    && (op.slot < |ss| ==> SlotStepped(op, ss[op.slot], ss'[op.slot]))
  }

  ghost predicate SlotStepped(op: Op, s: Slot, s': Slot) {
    match op
    case Get(_, bytes) => if s.mem != 0 then s' == s else Renewed(s, s', bytes, map[])
    case GetAligned(_, alignment, bytes) =>
      if s.mem != 0 then s' == s
      else Renewed(s, s', bytes, map[]) && (alignment > 8 && 0 <= s'.mem ==> s'.mem % Rounded(alignment) == 0)
    case Resize(_, bytes) => Renewed(s, s', bytes, Kept(s.words, bytes))
    case Put(_) => s' == NOTHING
    case Store(_, k, v) => s' == if s.mem != 0 && 4 * k + 4 <= s.size then s.(words := s.words[k := v]) else s
  }

  ghost predicate WordKept(m: Mem, s: Slot, k: int) {
    k in s.words ==> 0 <= k && 4 * k + 4 <= s.size && Rd(m, s.mem + 4 * k) == s.words[k]
  }

  /** The slot owns an aligned block with room for its size, which still holds
      every word the program stored. */
  ghost predicate Holds(m: Mem, h: Heap, s: Slot) {
    && s.mem % 8 == 0 && LOW <= s.mem && s.mem - 8 in h.live
    && h.live[s.mem - 8].req == s.size && 0 <= s.size && s.mem + s.size <= h.live[s.mem - 8].end
    && forall k {:trigger WordKept(m, s, k)} :: WordKept(m, s, k)
  }

  ghost predicate SlotOk(m: Mem, h: Heap, s: Slot) {
    if s.mem == 0 then s == NOTHING else Holds(m, h, s)
  }

  ghost predicate Separate(ss: seq<Slot>, i: int, j: int) {
    0 <= i < j < |ss| && ss[i].mem != 0 && ss[j].mem != 0 ==> ss[i].mem != ss[j].mem
  }

  ghost predicate Client(m: Mem, h: Heap, ss: seq<Slot>) {
    && (forall i {:trigger SlotOk(m, h, ss[i])} :: 0 <= i < |ss| ==> SlotOk(m, h, ss[i]))
    && (forall i, j {:trigger Separate(ss, i, j)} :: Separate(ss, i, j))
  }

  /** What one slot owns is untouched by an operation on other blocks. */
  lemma SlotKept(m: Mem, h: Heap, m': Mem, h': Heap, s: Slot, rest: map<int, Block>)
    requires SlotOk(m, h, s) && UserSame(rest, m, m')
    requires s.mem != 0 ==> s.mem - 8 in rest && rest[s.mem - 8] == h.live[s.mem - 8]
    requires s.mem != 0 ==> s.mem - 8 in h'.live && h'.live[s.mem - 8] == h.live[s.mem - 8]
    ensures SlotOk(m', h', s)
  {
    if s.mem != 0 {
      forall k ensures WordKept(m', s, k) {
        assert WordKept(m, s, k);
        if k in s.words { assert rest[s.mem - 8].end == h.live[s.mem - 8].end; }
      }
    }
  }

  /** One slot is replaced; the others own other blocks. */
  lemma ClientStep(m: Mem, h: Heap, m': Mem, h': Heap, ss: seq<Slot>, i: nat, s: Slot, rest: map<int, Block>)
    requires Client(m, h, ss) && i < |ss| && SlotOk(m', h', s) && UserSame(rest, m, m')
    requires rest == if ss[i].mem == 0 then h.live else h.live - {ss[i].mem - 8}
    requires forall p {:trigger p in h'.live} {:trigger rest[p]} :: p in rest ==> p in h'.live && h'.live[p] == rest[p]
    requires s.mem != 0 ==> s.mem - 8 !in rest
    ensures Client(m', h', ss[i := s])
  {
    var ss' := ss[i := s];
    forall j | 0 <= j < |ss'| ensures SlotOk(m', h', ss'[j]) && (j != i && ss[j].mem != 0 ==> ss[j].mem - 8 in rest) {
      if j != i {
        assert SlotOk(m, h, ss[j]);
        assert Separate(ss, i, j) && Separate(ss, j, i);
        SlotKept(m, h, m', h', ss[j], rest);
      }
    }
    forall j, k ensures Separate(ss', j, k) { assert Separate(ss, j, k); }
  }

  /** A new block in an empty slot. */
  lemma Granting(m: Mem, h: Heap, m': Mem, h': Heap, ss: seq<Slot>, i: nat, r: int, bytes: int)
    requires Client(m, h, ss) && i < |ss| && ss[i].mem == 0 && UserSame(h.live, m, m') && 0 <= bytes
    requires r == 0 ==> h'.live == h.live
    requires r != 0 ==> r % 8 == 0 && LOW <= r && r - 8 !in h.live && r - 8 in h'.live
    requires r != 0 ==> h'.live == h.live[r - 8 := Block(bytes, h'.live[r - 8].end)] && r + bytes <= h'.live[r - 8].end
    ensures Client(m', h', ss[i := if r == 0 then NOTHING else Slot(r, bytes, map[])])
  {
    var s := if r == 0 then NOTHING else Slot(r, bytes, map[]);
    if r != 0 {
      forall k ensures WordKept(m', s, k) { }
    }
    ClientStep(m, h, m', h', ss, i, s, h.live);
  }

  /** A resized block keeps the words that fit. */
  lemma Resizing(m: Mem, h: Heap, m': Mem, h': Heap, ss: seq<Slot>, i: nat, r: int, bytes: int)
    requires Client(m, h, ss) && i < |ss| && ss[i].mem != 0 && 0 <= bytes
    requires ss[i].mem - 8 in h.live && Resized(h, h', m, m', ss[i].mem - 8, r, bytes)
    ensures Client(m', h', if r == 0 then ss else ss[i := Slot(r, bytes, Kept(ss[i].words, bytes))])
  {
    var s, p := ss[i], ss[i].mem - 8;
    assert SlotOk(m, h, s);
    var rest := h.live - {p};
    if r == 0 {
      SameForFewer(rest, h.live, m, m');
      SlotKept(m, h, m', h', s, h.live);
      ClientStep(m, h, m', h', ss, i, s, rest);
      assert ss[i := s] == ss;
    } else {
      var s' := Slot(r, bytes, Kept(s.words, bytes));
      forall k ensures WordKept(m', s', k) {
        assert WordKept(m, s, k);
        if k in s'.words { assert Rd(m', r + 4 * k) == Rd(m, p + 8 + 4 * k); }
      }
      ClientStep(m, h, m', h', ss, i, s', rest);
    }
  }

  lemma Freeing(m: Mem, h: Heap, m': Mem, h': Heap, ss: seq<Slot>, i: nat)
    requires Client(m, h, ss) && i < |ss| && UserSame(h'.live, m, m')
    requires h'.live == if ss[i].mem == 0 then h.live else h.live - {ss[i].mem - 8}
    ensures Client(m', h', ss[i := NOTHING])
  {
    ClientStep(m, h, m', h', ss, i, NOTHING, h'.live);
  }

  lemma Storing(m: Mem, h: Heap, m': Mem, ss: seq<Slot>, i: nat, k: nat, v: int)
    requires Client(m, h, ss) && i < |ss| && ss[i].mem != 0 && 4 * k + 4 <= ss[i].size
    requires UserSame(h.live - {ss[i].mem - 8}, m, m') && m' == m[ss[i].mem + 4 * k := v]
    ensures Client(m', h, ss[i := ss[i].(words := ss[i].words[k := v])])
  {
    var s := ss[i];
    assert SlotOk(m, h, s);
    var s' := s.(words := s.words[k := v]);
    forall j ensures WordKept(m', s', j) { assert WordKept(m, s, j); }
    ClientStep(m, h, m', h, ss, i, s', h.live - {s.mem - 8});
  }

  // ----- one operation -----

  method DoGet(a: Allocator, i: nat, bytes: int, ss: seq<Slot>) returns (ss': seq<Slot>)
    requires a.Valid() && Client(a.m, a.h, ss) && 0 <= bytes < WORD && i < |ss|
    modifies a
    ensures a.Valid() && Client(a.m, a.h, ss') && Stepped(Get(i, bytes), ss, ss')
  {
    ss' := ss;
    if ss[i].mem == 0 {
      assert SlotOk(a.m, a.h, ss[i]);
      var r; ghost var how, mid;
      r, how, mid := a.Malloc(bytes);
      Request2SizeIsLeast(bytes, 0);
      Granting(old(a.m), old(a.h), a.m, a.h, ss, i, r, bytes);
      ss' := ss[i := if r == 0 then NOTHING else Slot(r, bytes, map[])];
    }
  }

  method DoGetAligned(a: Allocator, i: nat, alignment: nat, bytes: int, ss: seq<Slot>) returns (ss': seq<Slot>)
    requires a.Valid() && Client(a.m, a.h, ss) && Legal(GetAligned(i, alignment, bytes)) && i < |ss|
    modifies a
    ensures a.Valid() && Client(a.m, a.h, ss') && Stepped(GetAligned(i, alignment, bytes), ss, ss')
  {
    ss' := ss;
    if ss[i].mem == 0 {
      assert SlotOk(a.m, a.h, ss[i]);
      var r; ghost var mid;
      r, mid := a.Memalign(alignment, bytes);
      Request2SizeIsLeast(bytes, 0);
      Granting(old(a.m), old(a.h), a.m, a.h, ss, i, r, bytes);
      if alignment > 8 { AlignedGrantDivides(old(a.h), a.h, r, alignment, bytes, Request2Size(bytes)); }
      ss' := ss[i := if r == 0 then NOTHING else Slot(r, bytes, map[])];
    }
  }

  method DoResize(a: Allocator, i: nat, bytes: int, ss: seq<Slot>) returns (ss': seq<Slot>)
    requires a.Valid() && Client(a.m, a.h, ss) && 0 <= bytes < WORD && i < |ss|
    modifies a
    ensures a.Valid() && Client(a.m, a.h, ss') && Stepped(Resize(i, bytes), ss, ss')
  {
    assert SlotOk(a.m, a.h, ss[i]);
    var r; ghost var mid;
    r, mid := a.Realloc(ss[i].mem, bytes);
    Request2SizeIsLeast(bytes, 0);
    if ss[i].mem == 0 {
      Granting(old(a.m), old(a.h), a.m, a.h, ss, i, r, bytes);
    } else {
      Resizing(old(a.m), old(a.h), a.m, a.h, ss, i, r, bytes);
    }
    ss' := if r == 0 then ss else ss[i := Slot(r, bytes, Kept(ss[i].words, bytes))];
    assert r == 0 && ss[i].mem == 0 ==> ss[i := NOTHING] == ss;
  }

  method DoPut(a: Allocator, i: nat, ss: seq<Slot>) returns (ss': seq<Slot>)
    requires a.Valid() && Client(a.m, a.h, ss) && i < |ss|
    modifies a
    ensures a.Valid() && Client(a.m, a.h, ss') && Stepped(Put(i), ss, ss')
  {
    assert SlotOk(a.m, a.h, ss[i]);
    a.FreeBlock(ss[i].mem);
    Freeing(old(a.m), old(a.h), a.m, a.h, ss, i);
    ss' := ss[i := NOTHING];
  }

  method DoStore(a: Allocator, i: nat, k: nat, v: int, ss: seq<Slot>) returns (ss': seq<Slot>)
    requires a.Valid() && Client(a.m, a.h, ss) && i < |ss|
    modifies a
    ensures a.Valid() && Client(a.m, a.h, ss') && Stepped(Store(i, k, v), ss, ss')
  {
    ss' := ss;
    if ss[i].mem != 0 && 4 * k + 4 <= ss[i].size {
      assert SlotOk(a.m, a.h, ss[i]);
      var w := ss[i].mem + 4 * k;
      UserWrite(a.m, a.h, a.fastbins, ss[i].mem - 8, w, v);
      Storing(a.m, a.h, a.m[w := v], ss, i, k, v);
      a.m := a.m[w := v];
      ss' := ss[i := ss[i].(words := ss[i].words[k := v])];
    }
  }

  method Step(a: Allocator, op: Op, ss: seq<Slot>) returns (ss': seq<Slot>)
    requires a.Valid() && Client(a.m, a.h, ss) && Legal(op)
    modifies a
    ensures a.Valid() && Client(a.m, a.h, ss') && Stepped(op, ss, ss')
  {
    ss' := ss;
    if op.slot < |ss| {
      match op {
        case Get(i, bytes) => ss' := DoGet(a, i, bytes, ss);
        case GetAligned(i, alignment, bytes) => ss' := DoGetAligned(a, i, alignment, bytes, ss);
        case Resize(i, bytes) => ss' := DoResize(a, i, bytes, ss);
        case Put(i) => ss' := DoPut(a, i, ss);
        case Store(i, k, v) => ss' := DoStore(a, i, k, v, ss);
      }
    }
  }

  // ----- whole runs -----

  ghost predicate Disjoint(s: Slot, t: Slot) {
    s.mem != 0 && t.mem != 0 ==> s.mem + s.size < t.mem || t.mem + t.size < s.mem
  }

  lemma SlotsDisjoint(m: Mem, h: Heap, ss: seq<Slot>, i: nat, j: nat)
    requires Inv(h) && Client(m, h, ss) && i < j < |ss|
    ensures Disjoint(ss[i], ss[j])
  {
    assert SlotOk(m, h, ss[i]) && SlotOk(m, h, ss[j]) && Separate(ss, i, j);
    if ss[i].mem != 0 && ss[j].mem != 0 {
      var p, q := ss[i].mem - 8, ss[j].mem - 8;
      if p < q { BlocksApart(h, p, q); } else { BlocksApart(h, q, p); }
    }
  }

  /** Every state the program went through follows from the one before by the
      meaning of the operation. */
  ghost predicate Traced(ops: seq<Op>, trace: seq<seq<Slot>>, n: nat) {
    && |trace| == |ops| + 1 && trace[0] == seq(n, _ => NOTHING)
    && forall i :: 0 <= i < |ops| ==> Stepped(ops[i], trace[i], trace[i + 1])
  }

  /** From a fresh allocator, whatever the program does and whatever mmap
      answers: its blocks are aligned, large enough, pairwise disjoint, and hold
      exactly the words the program stored in them. */
  method Run(answers: seq<int>, ops: seq<Op>, n: nat) returns (a: Allocator, ss: seq<Slot>, ghost trace: seq<seq<Slot>>)
    requires forall i :: 0 <= i < |ops| ==> Legal(ops[i])
    ensures fresh(a) && a.Valid() && Traced(ops, trace, n) && ss == trace[|ops|] && |ss| == n
    ensures forall i :: 0 <= i < n ==> SlotOk(a.m, a.h, ss[i])
    ensures forall i, j :: 0 <= i < j < n ==> Disjoint(ss[i], ss[j])
  {
    a := new Allocator(answers);
    ss := seq(n, _ => NOTHING);
    trace := [ss];
    assert Client(a.m, a.h, ss);
    var t := 0;
    while t < |ops|
      invariant 0 <= t <= |ops| && a.Valid() && Client(a.m, a.h, ss) && fresh(a)
      invariant Traced(ops[..t], trace, n) && ss == trace[t] && |ss| == n
    {
      ghost var before := trace;
      var ss' := Step(a, ops[t], ss);
      trace := trace + [ss'];
      TraceGrows(ops, t, before, n, ss');
      ss := ss';
      t := t + 1;
    }
    assert ops[..t] == ops;
    AllDisjoint(a, ss);
  }

  lemma TraceGrows(ops: seq<Op>, t: nat, trace: seq<seq<Slot>>, n: nat, ss: seq<Slot>)
    requires t < |ops| && Traced(ops[..t], trace, n) && Stepped(ops[t], trace[t], ss)
    ensures Traced(ops[..t + 1], trace + [ss], n)
  {
    assert ops[..t + 1] == ops[..t] + [ops[t]];
  }

  lemma AllDisjoint(a: Allocator, ss: seq<Slot>)
    requires a.Valid() && Client(a.m, a.h, ss)
    ensures forall i, j :: 0 <= i < j < |ss| ==> Disjoint(ss[i], ss[j])
  {
    if a.maxFast == 0 { EmptyHeapOk(); }
    forall i, j | 0 <= i < j < |ss| ensures Disjoint(ss[i], ss[j]) { SlotsDisjoint(a.m, a.h, ss, i, j); }
  }
}
