/** The object cache of benchmarks/cache.c (CACHE_LINES build): a circular
    doubly linked list, a hash and a free list over the same objects. */
module LruCache {
  import opened LruOrder

  const OBJECT_SIZE := 1024 * 1024

  /** struct obj; its first word is the id, or the next pointer on the free list. */
  datatype Obj = Obj(first: int, next: int, prev: int, a: int, b: int)

  type Memory = map<int, Obj>

  /** What the database holds for an id. */
  type Database = int -> (int, int)

  // ----- the circular list -----

  ghost function Succ(s: seq<int>, i: int): int
    requires 0 <= i < |s|
  {
    if i + 1 < |s| then s[i + 1] else s[0]
  }

  ghost function Pred(s: seq<int>, i: int): int
    requires 0 <= i < |s|
  {
    if i > 0 then s[i - 1] else s[|s| - 1]
  }

  ghost predicate NodeOk(m: Memory, s: seq<int>, i: int) {
    0 <= i < |s| ==> s[i] in m && s[i] != 0 && m[s[i]].next == Succ(s, i) && m[s[i]].prev == Pred(s, i)
  }

  /** The objects s form a ring in this order. */
  ghost predicate Ring(m: Memory, s: seq<int>) {
    Distinct(s) && forall i {:trigger NodeOk(m, s, i)} :: NodeOk(m, s, i)
  }

  ghost function Head(s: seq<int>): int { if |s| == 0 then 0 else s[0] }

  function SetNext(m: Memory, p: int, v: int): Memory
    requires p in m
  {
    m[p := m[p].(next := v)]
  }

  function SetPrev(m: Memory, p: int, v: int): Memory
    requires p in m
  {
    m[p := m[p].(prev := v)]
  }

  /** Only link fields differ. */
  ghost predicate SameData(m: Memory, m': Memory) {
    m'.Keys == m.Keys && forall p :: p in m ==> m'[p] == m[p].(next := m'[p].next, prev := m'[p].prev)
  }

  ghost function Cut(s: seq<int>, k: int): seq<int>
    requires 0 <= k < |s|
  {
    s[..k] + s[k + 1..]
  }

  /** e->prev->next = e->next; e->next->prev = e->prev */
  lemma UnlinkRing(m: Memory, s: seq<int>, k: int)
    requires Ring(m, s) && 0 <= k < |s| && |s| >= 2 && s[k] in m
    ensures var e := m[s[k]]; e.prev in m && e.next in m && e.prev != s[k] && e.next != s[k]
    ensures var e := m[s[k]]; var m' := SetPrev(SetNext(m, e.prev, e.next), e.next, e.prev);
      Ring(m', Cut(s, k)) && SameData(m, m') && m'[s[k]] == m[s[k]]
  {
    assert NodeOk(m, s, k);
    var x, y := Pred(s, k), Succ(s, k);
    assert NodeOk(m, s, if k > 0 then k - 1 else |s| - 1);
    assert NodeOk(m, s, if k + 1 < |s| then k + 1 else 0);
    var m' := SetPrev(SetNext(m, x, y), y, x);
    var t := Cut(s, k);
    forall i ensures NodeOk(m', t, i) {
      if 0 <= i < |t| {
        var j := if i < k then i else i + 1;
        assert t[i] == s[j] && NodeOk(m, s, j);
      }
    }
  }

  /** Put e in front of the ring s, between its last and its first object. */
  lemma EnqueueRing(m: Memory, s: seq<int>, e: int)
    requires Ring(m, s) && |s| >= 1 && s[0] in m && e in m && e != 0 && e !in s
    ensures var x, y := m[s[0]].prev, s[0];
      x in m && y in m && x != e && y != e && m[x].next == y
    ensures var x, y := m[s[0]].prev, s[0]; var m' := SetPrev(SetNext(SetPrev(SetNext(m, e, y), e, x), x, e), y, e);
      Ring(m', [e] + s) && SameData(m, m')
  {
    var n := |s|;
    assert NodeOk(m, s, 0) && NodeOk(m, s, n - 1);
    var x, y := s[n - 1], s[0];
    var m' := SetPrev(SetNext(SetPrev(SetNext(m, e, y), e, x), x, e), y, e);
    var t := [e] + s;
    forall i ensures NodeOk(m', t, i) {
      if 1 <= i < |t| { assert NodeOk(m, s, i - 1); }
    }
  }

  // ----- hash, contents and free list: none depends on the links -----

  ghost predicate Holds(m: Memory, db: Database, hash: map<int, int>, p: int) {
    && p in m && 0 < m[p].first <= OBJECT_SIZE && (m[p].a, m[p].b) == db(m[p].first)
    && m[p].first in hash && hash[m[p].first] == p
  }

  ghost predicate Hashed(m: Memory, hash: map<int, int>, s: seq<int>, id: int) {
    id in hash ==> hash[id] in s && hash[id] in m && m[hash[id]].first == id
  }

  /** Every object of s is what the database says and is hashed under its id, and
      nothing else is. */
  ghost predicate Cached(m: Memory, db: Database, hash: map<int, int>, s: seq<int>) {
    && (forall i {:trigger s[i]} :: 0 <= i < |s| ==> Holds(m, db, hash, s[i]))
    && (forall id {:trigger Hashed(m, hash, s, id)} :: Hashed(m, hash, s, id))
  }

  ghost predicate FreeNode(m: Memory, free: seq<int>, i: int) {
    0 <= i < |free| ==> free[i] in m && free[i] != 0 && m[free[i]].first == if i + 1 < |free| then free[i + 1] else 0
  }

  ghost predicate FreeList(m: Memory, free: seq<int>) {
    Distinct(free) && forall i {:trigger FreeNode(m, free, i)} :: FreeNode(m, free, i)
  }

  ghost predicate Allocated(m: Memory, brk: int) { 0 < brk && forall p :: p in m ==> 0 < p < brk }

  /** Changing links keeps all of it. */
  lemma DataKept(m: Memory, m': Memory, db: Database, hash: map<int, int>, s: seq<int>, free: seq<int>, brk: int)
    requires SameData(m, m')
    ensures Cached(m, db, hash, s) ==> Cached(m', db, hash, s)
    ensures FreeList(m, free) ==> FreeList(m', free)
    ensures Allocated(m, brk) ==> Allocated(m', brk)
  {
    if Cached(m, db, hash, s) {
      forall i | 0 <= i < |s| ensures Holds(m', db, hash, s[i]) { assert Holds(m, db, hash, s[i]); }
      forall id ensures Hashed(m', hash, s, id) { assert Hashed(m, hash, s, id); }
    }
    if FreeList(m, free) {
      forall i ensures FreeNode(m', free, i) { assert FreeNode(m, free, i); }
    }
  }

  ghost function Ids(m: Memory, s: seq<int>): seq<int>
    requires forall i :: 0 <= i < |s| ==> s[i] in m
  {
    seq(|s|, i requires 0 <= i < |s| => m[s[i]].first)
  }

  class Cache {
    const db: Database
    /** cache_lines; 0 means no limit. */
    const lines: nat
    var mem: Memory
    var list: int
    var entries: int
    var hash: map<int, int>
    var objects: int
    /** malloc hands out addresses from here on. */
    var brk: int
    ghost var lru: seq<int>
    ghost var free: seq<int>

    /** The list and the free list are in order and share no object. */
    ghost predicate Linked()
      reads this
    {
      && Ring(mem, lru) && list == Head(lru)
      && FreeList(mem, free) && objects == Head(free)
      && Allocated(mem, brk) && forall p :: p in lru ==> p !in free
    }

    ghost predicate Valid()
      reads this
    {
      Linked() && Cached(mem, db, hash, lru) && entries == |lru| && (lines > 0 ==> |lru| <= lines)
    }

    constructor (db: Database, lines: nat)
      ensures Valid() && lru == [] && this.db == db && this.lines == lines
    {
      this.db, this.lines := db, lines;
      mem, list, entries, hash, objects, brk := map[], 0, 0, map[], 0, 1;
      lru, free := [], [];
    }

    /** list_unlink; on a single-element ring it changes nothing, since the
        element is its own successor. */
    method ListUnlink(e: int, ghost k: nat)
      requires Linked() && k < |lru| && lru[k] == e
      modifies `mem, `list, `lru
      ensures Linked() && SameData(old(mem), mem)
      ensures |old(lru)| >= 2 ==> lru == Cut(old(lru), k)
      ensures |old(lru)| == 1 ==> lru == old(lru) && mem == old(mem)
    {
      assert NodeOk(mem, lru, k) && NodeOk(mem, lru, if k + 1 < |lru| then k + 1 else 0);
      var x := mem[e];
      if x.next != 0 {
        if |lru| >= 2 { UnlinkRing(mem, lru, k); }
        mem := SetNext(mem, x.prev, x.next);
        mem := SetPrev(mem, x.next, x.prev);
        DataKept(old(mem), mem, db, hash, lru, free, brk);
        if list == e {
          list := x.next;
        }
        if |lru| >= 2 { lru := Cut(lru, k); }
      } else {
        assert false;
      }
    }

    /** list_enqueue; also called for the element a single-element unlink left. */
    method ListEnqueue(e: int)
      requires Linked() && e in mem && (e !in lru || lru == [e]) && e !in free
      modifies `mem, `list, `lru
      ensures Linked() && SameData(old(mem), mem)
      ensures lru == if old(lru) == [e] then [e] else [e] + old(lru)
    {
      var next := list;
      assert NodeOk(mem, lru, 0);
      if next != 0 {
        if lru != [e] { EnqueueRing(mem, lru, e); }
        var prev := mem[next].prev;
        mem := SetNext(mem, e, next);
        mem := SetPrev(mem, e, prev);
        mem := SetNext(mem, prev, e);
        mem := SetPrev(mem, next, e);
      } else {
        mem := SetPrev(mem, e, e);
        mem := SetNext(mem, e, e);
      }
      DataKept(old(mem), mem, db, hash, lru, free, brk);
      list := e;
      if lru != [e] { lru := [e] + lru; }
      if |lru| == 1 { forall i ensures NodeOk(mem, lru, i) { } }
    }

    /** list_dequeue: take the tail off. */
    method ListDequeue() returns (e: int)
      requires Linked() && |lru| >= 2
      modifies `mem, `list, `lru
      ensures Linked() && SameData(old(mem), mem)
      ensures e == old(lru)[|old(lru)| - 1] && lru == old(lru)[..|old(lru)| - 1]
    {
      assert NodeOk(mem, lru, 0);
      e := mem[list].prev;
      ListUnlink(e, |lru| - 1);
    }

    /** object_free: the next pointer overwrites the id. */
    method ObjectFree(p: int)
      requires Linked() && p in mem && p !in lru && p !in free
      modifies `mem, `objects, `free
      ensures Linked() && free == [p] + old(free) && mem == old(mem)[p := old(mem)[p].(first := old(objects))]
    {
      FreeMore(mem, lru, free, p);
      mem := mem[p := mem[p].(first := objects)];
      objects := p;
      free := [p] + free;
    }

    /** object_lookup_hard: a recycled or new object, filled from the database. */
    method LookupHard(id: int) returns (p: int)
      requires Linked() && 0 < id <= OBJECT_SIZE
      modifies `mem, `objects, `free, `brk
      ensures Linked() && p in mem && p !in lru && p !in free
      ensures mem[p].first == id && (mem[p].a, mem[p].b) == db(id)
      ensures forall q :: q in old(mem) && q != p ==> q in mem && mem[q] == old(mem)[q]
    {
      if objects != 0 {
        assert FreeNode(mem, free, 0) && FreeNode(mem, free, 1);
        p := objects;
        objects := mem[p].first;
        FreeLess(mem, free);
        free := free[1..];
      } else {
        ListsInMemory(mem, lru, free);
        p := brk;
        brk := brk + 1;
        mem := mem[p := Obj(0, 0, 0, 0, 0)];
        NewObject(old(mem), lru, free, p, mem[p]);
      }
      var v := db(id);
      NewObject(mem, lru, free, p, mem[p].(a := v.0, b := v.1, first := id));
      mem := mem[p := mem[p].(a := v.0, b := v.1, first := id)];
    }

    /** The eviction loop: the k least recently used objects go, the new one
        (not yet hashed) stays in front. */
    method Evict(k: nat, id: int, ghost newest: int)
      requires Linked() && |lru| > k && lru[0] == newest && id !in hash && entries == |lru|
      requires Cached(mem, db, hash[id := newest], lru)
      modifies `mem, `list, `lru, `hash, `objects, `free, `entries
      ensures Linked() && lru == old(lru)[..|old(lru)| - k] && id !in hash && entries == |lru|
      ensures Cached(mem, db, hash[id := newest], lru)
      ensures forall p :: p in lru ==> p in mem && p in old(mem) && mem[p].first == old(mem)[p].first
    {
      var i := 0;
      while i < k
        invariant 0 <= i <= k && Linked() && lru == old(lru)[..|old(lru)| - i] && id !in hash && entries == |lru|
        invariant Cached(mem, db, hash[id := newest], lru)
        invariant mem.Keys == old(mem).Keys && forall p :: p in lru ==> p in mem && mem[p].first == old(mem)[p].first
      {
        EvictOne(id, newest);
        i := i + 1;
      }
    }

    method EvictOne(id: int, ghost newest: int)
      requires Linked() && |lru| >= 2 && lru[0] == newest && id !in hash && Cached(mem, db, hash[id := newest], lru)
      modifies `mem, `list, `lru, `hash, `objects, `free, `entries
      ensures Linked() && lru == old(lru)[..|old(lru)| - 1] && id !in hash && entries == old(entries) - 1
      ensures Cached(mem, db, hash[id := newest], lru) && mem.Keys == old(mem).Keys
      ensures forall p :: p in lru ==> p in mem && mem[p].first == old(mem)[p].first
    {
      ghost var s := lru;
      var e := ListDequeue();
      DataKept(old(mem), mem, db, hash[id := newest], s, free, brk);
      assert Holds(mem, db, hash[id := newest], s[|s| - 1]);
      Evicted(mem, db, hash, s, id, newest, objects);
      hash := hash - {mem[e].first};
      ObjectFree(e);
      entries := entries - 1;
    }

    /** The ids in the cache, the most recently used first. */
    ghost function Contents(): seq<int>
      requires Valid()
      reads this
    {
      ListsInMemory(mem, lru, free);
      Ids(mem, lru)
    }

    method Hit(id: int) returns (p: int)
      requires Valid() && id in hash
      modifies `mem, `list, `lru
      ensures Valid() && p in mem && mem[p].first == id && (mem[p].a, mem[p].b) == db(id)
      ensures id in old(Contents()) && Contents() == [id] + Without(old(Contents()), id)
    {
      ListsInMemory(mem, lru, free);
      ghost var ids := Ids(mem, lru);
      p := hash[id];
      assert Hashed(mem, hash, lru, id);
      ghost var k :| 0 <= k < |lru| && lru[k] == p;
      assert Holds(mem, db, hash, lru[k]);
      IdsCut(mem, db, hash, lru, k);
      ListUnlink(p, k);
      ListEnqueue(p);
      HitKeeps(old(mem), mem, db, hash, old(lru), lru, k, free, brk);
    }

    /** Build the object and put it in front; it is not hashed yet. */
    method AddNew(id: int) returns (p: int)
      requires Valid() && id !in hash && 0 < id <= OBJECT_SIZE
      modifies `mem, `list, `lru, `objects, `free, `brk, `entries
      ensures Linked() && lru == [p] + old(lru) && entries == |lru| && Cached(mem, db, hash[id := p], lru)
      ensures forall q :: q in old(lru) ==> q in old(mem) && q in mem && mem[q].first == old(mem)[q].first
      ensures p in mem && mem[p].first == id
    {
      ListsInMemory(mem, lru, free);
      ghost var s, m0 := lru, mem;
      p := LookupHard(id);
      ghost var m1 := mem;
      NewCached(m0, m1, db, hash, s, id, p);
      ListEnqueue(p);
      DataKept(m1, mem, db, hash[id := p], lru, free, brk);
      entries := entries + 1;
    }

    method Miss(id: int) returns (p: int)
      requires Valid() && id !in hash && 0 < id <= OBJECT_SIZE
      modifies this
      ensures Valid() && |lru| > 0 && lru[0] == p && Holds(mem, db, hash, p) && mem[p].first == id
      ensures id !in old(Contents()) && Contents() == ([id] + old(Contents()))[..Kept(|old(Contents())| + 1, lines)]
    {
      ListsInMemory(mem, lru, free);
      NotCached(mem, db, hash, lru, id);
      p := AddNew(id);
      EvictionLeavesRoom(|old(lru)|, lines);
      if lines != 0 && entries > lines {
        Evict((lines + 4) / 5, id, p);
      }
      hash := hash[id := p];
      ListsInMemory(mem, lru, free);
      assert Holds(mem, db, hash, lru[0]);
      IdsAfter(old(mem), mem, old(lru), lru, p, id, Kept(|old(lru)| + 1, lines));
    }

    /** object_lookup: the object an uncached lookup would build, and the new
        contents of the cache. */
    method Lookup(id: int) returns (p: int)
      requires Valid() && 0 < id <= OBJECT_SIZE
      modifies this
      ensures Valid() && p in mem && mem[p].first == id && (mem[p].a, mem[p].b) == db(id)
      ensures Contents() == Touched(old(Contents()), id, lines)
    {
      if id in hash {
        p := Hit(id);
      } else {
        p := Miss(id);
      }
    }
  }

  lemma ListsInMemory(m: Memory, s: seq<int>, free: seq<int>)
    requires Ring(m, s) && FreeList(m, free)
    ensures (forall p :: p in s ==> p in m) && forall p :: p in free ==> p in m
  {
    forall p | p in s ensures p in m { var i :| 0 <= i < |s| && s[i] == p; assert NodeOk(m, s, i); }
    forall p | p in free ensures p in m { var i :| 0 <= i < |free| && free[i] == p; assert FreeNode(m, free, i); }
  }

  lemma FreeMore(m: Memory, s: seq<int>, free: seq<int>, p: int)
    requires Ring(m, s) && FreeList(m, free) && p in m && p != 0 && p !in s && p !in free
    ensures var m' := m[p := m[p].(first := Head(free))]; Ring(m', s) && FreeList(m', [p] + free)
  {
    var m' := m[p := m[p].(first := Head(free))];
    var t := [p] + free;
    forall i ensures NodeOk(m', s, i) { assert NodeOk(m, s, i); }
    forall i ensures FreeNode(m', t, i) { assert FreeNode(m, free, i - 1); }
  }

  lemma FreeLess(m: Memory, free: seq<int>)
    requires FreeList(m, free) && |free| > 0
    ensures FreeList(m, free[1..])
  {
    var t := free[1..];
    forall i ensures FreeNode(m, t, i) { assert FreeNode(m, free, i + 1); }
  }

  /** An object that is in neither list may be given any contents. */
  lemma NewObject(m: Memory, s: seq<int>, free: seq<int>, p: int, x: Obj)
    requires Ring(m, s) && FreeList(m, free) && p !in s && p !in free
    ensures Ring(m[p := x], s) && FreeList(m[p := x], free)
  {
    var m' := m[p := x];
    forall i ensures NodeOk(m', s, i) { assert NodeOk(m, s, i); }
    forall i ensures FreeNode(m', free, i) { assert FreeNode(m, free, i); }
  }

  lemma Evicted(m: Memory, db: Database, hash: map<int, int>, s: seq<int>, id: int, newest: int, v: int)
    requires Distinct(s) && |s| >= 2 && s[0] == newest && id !in hash && Cached(m, db, hash[id := newest], s)
    ensures var e := s[|s| - 1]; e in m && m[e].first != id
    ensures var e := s[|s| - 1];
      Cached(m[e := m[e].(first := v)], db, (hash - {m[e].first})[id := newest], s[..|s| - 1])
  {
    var n, h := |s| - 1, hash[id := newest];
    var e := s[n];
    assert Holds(m, db, h, s[0]) && Holds(m, db, h, e);
    var t, m', h' := s[..n], m[e := m[e].(first := v)], (hash - {m[e].first})[id := newest];
    forall i | 0 <= i < |t| ensures Holds(m', db, h', t[i]) { assert Holds(m, db, h, s[i]); }
    forall x ensures Hashed(m', h', t, x) {
      assert Hashed(m, h, s, x);
      if x in h' {
        assert x in h && h'[x] == h[x];
        var i :| 0 <= i < |s| && s[i] == h[x];
        assert i < n;
        assert t[i] == h[x];
      }
    }
  }

  lemma IdsCut(m: Memory, db: Database, hash: map<int, int>, s: seq<int>, k: nat)
    requires Distinct(s) && Cached(m, db, hash, s) && k < |s| && forall i :: 0 <= i < |s| ==> s[i] in m
    ensures Without(Ids(m, s), m[s[k]].first) == Ids(m, Cut(s, k)) && m[s[k]].first in Ids(m, s)
  {
    var ids := Ids(m, s);
    assert ids[k] == m[s[k]].first;
    forall i | 0 <= i < k ensures ids[i] != ids[k] { assert Holds(m, db, hash, s[i]) && Holds(m, db, hash, s[k]); }
    WithoutIndex(ids, k);
    assert ids[..k] + ids[k + 1..] == Ids(m, Cut(s, k));
  }

  /** Moving an object to the front keeps the same objects cached. */
  lemma FrontCached(m: Memory, db: Database, hash: map<int, int>, s: seq<int>, t: seq<int>, k: nat)
    requires Cached(m, db, hash, s) && k < |s| && t == [s[k]] + Cut(s, k)
    ensures Cached(m, db, hash, t)
  {
    forall i | 0 <= i < |t| ensures Holds(m, db, hash, t[i]) {
      var j := if i == 0 then k else if i <= k then i - 1 else i;
      assert t[i] == s[j];
    }
    forall id ensures Hashed(m, hash, t, id) {
      assert Hashed(m, hash, s, id);
      if id in hash {
        var j :| 0 <= j < |s| && s[j] == hash[id];
        assert t[if j == k then 0 else if j < k then j + 1 else j] == s[j];
      }
    }
  }

  lemma HitKeeps(m: Memory, m': Memory, db: Database, hash: map<int, int>, s: seq<int>, t: seq<int>, k: nat,
                 free: seq<int>, brk: int)
    requires Cached(m, db, hash, s) && k < |s| && SameData(m, m')
    requires t == [s[k]] + (if |s| >= 2 then Cut(s, k) else [])
    ensures Cached(m', db, hash, t) && |t| == |s|
    ensures (forall i :: 0 <= i < |s| ==> s[i] in m) && (forall i :: 0 <= i < |t| ==> t[i] in m')
    ensures Ids(m', t) == [m[s[k]].first] + Ids(m, Cut(s, k))
  {
    assert t == [s[k]] + Cut(s, k);
    forall i | 0 <= i < |s| ensures s[i] in m { assert Holds(m, db, hash, s[i]); }
    DataKept(m, m', db, hash, s, free, brk);
    FrontCached(m', db, hash, s, t, k);
    assert Ids(m', t) == [m[s[k]].first] + Ids(m, Cut(s, k));
  }

  lemma NotCached(m: Memory, db: Database, hash: map<int, int>, s: seq<int>, id: int)
    requires Cached(m, db, hash, s) && id !in hash && forall i :: 0 <= i < |s| ==> s[i] in m
    ensures id !in Ids(m, s)
  {
    forall i | 0 <= i < |s| ensures m[s[i]].first != id { assert Holds(m, db, hash, s[i]); }
  }

  lemma NewCached(m: Memory, m': Memory, db: Database, hash: map<int, int>, s: seq<int>, id: int, p: int)
    requires Cached(m, db, hash, s) && id !in hash && p !in s && 0 < id <= OBJECT_SIZE
    requires p in m' && m'[p].first == id && (m'[p].a, m'[p].b) == db(id)
    requires forall q :: q in m && q != p ==> q in m' && m'[q] == m[q]
    ensures Cached(m', db, hash[id := p], [p] + s)
  {
    var t, h := [p] + s, hash[id := p];
    forall i | 0 <= i < |t| ensures Holds(m', db, h, t[i]) { if i > 0 { assert Holds(m, db, hash, s[i - 1]); } }
    forall x ensures Hashed(m', h, t, x) {
      assert Hashed(m, hash, s, x);
      if x in hash {
        var j :| 0 <= j < |s| && s[j] == hash[x];
        assert t[j + 1] == s[j];
      } else if x == id {
        assert t[0] == p;
      }
    }
  }

  ghost predicate Answer(x: Obj, db: Database, id: int) { x.first == id && (x.a, x.b) == db(id) }

  /** Any sequence of lookups: every answer is what an uncached lookup would build,
      and the contents are those of After, the most recently used ids. */
  method Run(db: Database, lines: nat, ids: seq<int>) returns (c: Cache, found: seq<Obj>)
    requires forall i :: 0 <= i < |ids| ==> 0 < ids[i] <= OBJECT_SIZE
    ensures fresh(c) && c.Valid() && |found| == |ids| && forall i :: 0 <= i < |ids| ==> Answer(found[i], db, ids[i])
    ensures c.Contents() == After(ids, lines) <= MostRecent(ids) && (lines > 0 ==> |c.Contents()| <= lines)
    ensures |c.Contents()| >= Floor(lines) || c.Contents() == MostRecent(ids)
    ensures lines == 0 ==> c.Contents() == MostRecent(ids)
  {
    c := new Cache(db, lines);
    found := [];
    var i := 0;
    while i < |ids|
      invariant 0 <= i <= |ids| && fresh(c) && c.Valid() && c.db == db && c.lines == lines
      invariant |found| == i && forall j :: 0 <= j < i ==> Answer(found[j], db, ids[j])
      invariant c.Contents() == After(ids[..i], lines)
    {
      var p := c.Lookup(ids[i]);
      found := found + [c.mem[p]];
      AfterOneMore(ids, i, lines);
      i := i + 1;
    }
    assert ids[..i] == ids;
    AfterIsMostRecent(ids, lines);
  }

  lemma AfterOneMore(ids: seq<int>, i: nat, lines: nat)
    requires i < |ids|
    ensures After(ids[..i + 1], lines) == Touched(After(ids[..i], lines), ids[i], lines)
  {
    assert ids[..i + 1][..i] == ids[..i];
  }

  lemma IdsAfter(m: Memory, m': Memory, s: seq<int>, t: seq<int>, p: int, id: int, n: nat)
    requires n <= |s| + 1 && t == ([p] + s)[..n] && p in m' && m'[p].first == id
    requires (forall i :: 0 <= i < |s| ==> s[i] in m) && (forall i :: 0 <= i < |t| ==> t[i] in m')
    requires forall q :: q in t && q != p ==> q in m && m'[q].first == m[q].first
    requires p !in s
    ensures Ids(m', t) == ([id] + Ids(m, s))[..n]
  {
    forall i | 0 <= i < n ensures Ids(m', t)[i] == ([id] + Ids(m, s))[i] {
      if i > 0 { assert t[i] == s[i - 1]; }
    }
  }
}
