/** Moving chunks in and out of bins and fastbins. */
module HeapLists {
  import opened MallocSizes
  import opened ChunkMemory
  import opened Chunks
  import opened HeapState

  /** Something that carries list links: a bin header or a free chunk. */
  ghost predicate IsNode(c: Arena, x: int) {
    x % 8 == 0 && (BINS <= x <= BINS + 752 || (x in c && c[x].kind.Free?))
  }

  lemma WireHeads(m: Mem, c: Arena, a: int, b: int)
    requires Wf(c) && HeadsOk(m, c) && IsNode(c, a) && IsNode(c, b)
    ensures HeadsOk(Wire(m, a, b), c)
  {
    forall q | q in c ensures HeadOk(Wire(m, a, b), q, c[q]) {
      assert HeadOk(m, q, c[q]);
      LinkWordsApart(c, a, q);
      LinkWordsApart(c, b, q);
    }
  }

  /** Link words of a node are not boundary tags. */
  lemma LinkWordsApart(c: Arena, x: int, q: int)
    requires Wf(c) && IsNode(c, x) && q in c
    ensures q % 8 == 0 && LOW <= q && x + 8 != q && x + 12 != q + 4
    ensures c[q].kind.Fence? ==> x + 8 != q + 8
  {
    assert Sound(c, q);
    if x in c {
      assert Sound(c, x) && Apart(c, x, q);
    }
  }

  lemma WireFastLists(m: Mem, h: Heap, heads: seq<int>, a: int, b: int)
    requires Inv(h) && FastLists(m, h.fast, heads) && IsNode(h.c, a) && IsNode(h.c, b)
    ensures FastLists(Wire(m, a, b), h.fast, heads)
  {
    forall i | 0 <= i < |h.fast| ensures FastRep(Wire(m, a, b), heads[i], h.fast[i]) {
      assert FastRep(m, heads[i], h.fast[i]) && FastSound(h.c, h.fast[i], i);
      var s := h.fast[i];
      forall j | 0 <= j < |s| ensures Fd(Wire(m, a, b), s[j]) == Fd(m, s[j]) {
        assert FastMember(h.c, s[j], i) && Sound(h.c, s[j]);
      }
      FastFrame(m, Wire(m, a, b), heads[i], s);
    }
  }

  lemma NodeOutsideMap(h: Heap, x: int, p: int)
    requires Inv(h) && IsNode(h.c, x) && p in h.mm
    ensures x + 16 <= p || h.mm[p].base + h.mm[p].len <= x
  {
    assert MapSound(h, p) && AreaOk(h, h.mm[p].base);
    if x in h.c {
      assert Sound(h.c, x) && Contained(h.regions, x, h.c[x]);
      MapOutsideRegion(h, p, h.c[x].reg);
    }
  }

  lemma WireMapHeads(m: Mem, h: Heap, a: int, b: int)
    requires Inv(h) && MapHeads(m, h.mm) && IsNode(h.c, a) && IsNode(h.c, b)
    ensures MapHeads(Wire(m, a, b), h.mm)
  {
    forall p | p in h.mm ensures MapHead(Wire(m, a, b), p, h.mm[p]) {
      assert MapHead(m, p, h.mm[p]) && MapSound(h, p);
      NodeOutsideMap(h, a, p);
      NodeOutsideMap(h, b, p);
    }
  }

  lemma NodeOutsideLive(h: Heap, x: int, p: int)
    requires Inv(h) && IsNode(h.c, x) && p in h.live
    ensures x + 16 <= p + 8 || h.live[p].end <= x + 8
  {
    assert LiveSound(h, p);
    if p in h.mm {
      NodeOutsideMap(h, x, p);
    } else {
      assert Sound(h.c, p);
      if x in h.c {
        assert Sound(h.c, x) && Apart(h.c, x, p) && Apart(h.c, p, x);
      }
    }
  }

  lemma WireUserSame(m: Mem, h: Heap, a: int, b: int)
    requires Inv(h) && IsNode(h.c, a) && IsNode(h.c, b)
    ensures UserSame(h.live, m, Wire(m, a, b))
  {
    forall p, w | p in h.live && p + 8 <= w < h.live[p].end ensures Rd(Wire(m, a, b), w) == Rd(m, w) {
      NodeOutsideLive(h, a, p);
      NodeOutsideLive(h, b, p);
    }
  }

  /** Rewiring list nodes leaves tags, fastbins, mappings and user data alone. */
  lemma WireRest(m: Mem, h: Heap, heads: seq<int>, a: int, b: int)
    requires Inv(h) && IsNode(h.c, a) && IsNode(h.c, b)
    requires HeadsOk(m, h.c) && FastLists(m, h.fast, heads) && MapHeads(m, h.mm) && Rd(m, BINS + 4) == 0
    ensures HeadsOk(Wire(m, a, b), h.c) && FastLists(Wire(m, a, b), h.fast, heads)
    ensures MapHeads(Wire(m, a, b), h.mm) && Rd(Wire(m, a, b), BINS + 4) == 0
    ensures UserSame(h.live, m, Wire(m, a, b))
  {
    WireHeads(m, h.c, a, b);
    WireFastLists(m, h, heads, a, b);
    WireMapHeads(m, h, a, b);
    WireUserSame(m, h, a, b);
    NodeAboveBins(h, a);
    NodeAboveBins(h, b);
  }

  lemma NodeAboveBins(h: Heap, x: int)
    requires Inv(h) && IsNode(h.c, x)
    ensures BINS <= x
  {
    if x in h.c { assert Sound(h.c, x); }
  }

  lemma BinNodesOk(h: Heap, i: nat)
    requires Inv(h) && 1 <= i < NBINS
    ensures NodesOk(BinAt(i), h.bins[i]) && IsNode(h.c, BinAt(i))
    ensures forall j :: -1 <= j <= |h.bins[i]| ==> IsNode(h.c, At(BinAt(i), h.bins[i], j))
  {
    var s := h.bins[i];
    assert BinSound(h.c, s, i);
    forall j | 0 <= j < |s| ensures s[j] % 8 == 0 && s[j] != BinAt(i) && IsNode(h.c, s[j]) {
      assert BinMember(h.c, s[j], i) && Sound(h.c, s[j]);
    }
  }

  /** Rewiring nodes of other lists keeps a list. */
  lemma WireOther(m: Mem, h: Heap, i: nat, a: int, b: int)
    requires Inv(h) && 1 <= i < NBINS && ListRep(m, BinAt(i), h.bins[i])
    requires IsNode(h.c, a) && a != BinAt(i) && a !in h.bins[i]
    requires IsNode(h.c, b) && b != BinAt(i) && b !in h.bins[i]
    ensures ListRep(Wire(m, a, b), BinAt(i), h.bins[i])
  {
    var s := h.bins[i];
    BinNodesOk(h, i);
    WireFrame(m, a, b, BinAt(i), BinAt(i));
    forall j | 0 <= j < |s| ensures Fd(Wire(m, a, b), s[j]) == Fd(m, s[j]) && Bk(Wire(m, a, b), s[j]) == Bk(m, s[j]) {
      assert IsNode(h.c, At(BinAt(i), s, j));
      WireFrame(m, a, b, s[j], s[j]);
    }
    ListFrame(m, Wire(m, a, b), BinAt(i), s);
  }

  // ----- taking a chunk off a bin -----

  ghost function Detach(h: Heap, b: nat, k: nat): Heap
    requires b < |h.bins| && k < |h.bins[b]| && h.bins[b][k] in h.c
  {
    h.(c := Retag(h.c, h.bins[b][k], Free(0)), bins := h.bins[b := Without(h.bins[b], k)])
  }

  lemma RetagRest(h: Heap, p: int, k: Kind, h': Heap)
    requires Inv(h) && p in h.c && p !in h.live && !Ends(h.c[p]) && !k.Top? && !k.Fence?
    requires h' == h.(c := Retag(h.c, p, k), bins := h'.bins, fast := h'.fast)
    ensures Tiled(h'.c, h'.regions) && OsOk(h') && TopOk(h')
    ensures forall q {:trigger LiveSound(h', q)} :: q in h'.live ==> LiveSound(h', q)
  {
    forall q | q in h'.c ensures Contained(h'.regions, q, h'.c[q]) {
      assert Contained(h.regions, q, h.c[q]);
    }
    forall q ensures OnlyTop(h', q) { assert OnlyTop(h, q); }
    forall q | q in h'.live ensures LiveSound(h', q) { assert LiveSound(h, q); }
    SameOs(h, h');
  }

  lemma InBin(h: Heap, b: nat, k: nat)
    requires Inv(h) && 1 <= b < NBINS && k < |h.bins[b]|
    ensures BinMember(h.c, h.bins[b][k], b) && h.bins[b][k] !in h.live
  {
    var p := h.bins[b][k];
    assert BinSound(h.c, h.bins[b], b);
    assert BinMember(h.c, p, b);
    if p in h.live {
      assert LiveSound(h, p);
      if p in h.mm { ChunkNotMapped(h, p); }
    }
  }

  lemma ChunkNotMapped(h: Heap, p: int)
    requires Inv(h) && p in h.c
    ensures p !in h.mm
  {
    if p in h.mm {
      assert Sound(h.c, p) && Contained(h.regions, p, h.c[p]);
      MapOutsideRegion(h, p, h.c[p].reg);
    }
  }

  lemma WithoutMembers(s: seq<int>, k: nat)
    requires Distinct(s) && k < |s|
    ensures Distinct(Without(s, k)) && s[k] !in Without(s, k)
    ensures forall x :: x in Without(s, k) <==> x in s && x != s[k]
  {
    var t := Without(s, k);
    assert forall j :: 0 <= j < |t| ==> t[j] == s[if j < k then j else j + 1];
    forall x | x in s && x != s[k] ensures x in t {
      var j :| 0 <= j < |s| && s[j] == x;
      assert t[if j < k then j else j - 1] == x;
    }
  }

  lemma DetachBins(h: Heap, b: nat, k: nat)
    requires Inv(h) && 1 <= b < NBINS && k < |h.bins[b]|
    ensures h.bins[b][k] in h.c && BinsOk(Detach(h, b, k).c, Detach(h, b, k).bins)
  {
    InBin(h, b, k);
    var h' := Detach(h, b, k);
    forall i: nat | i < NBINS ensures BinSound(h'.c, h'.bins[i], i) {
      DetachOneBin(h, b, k, i);
    }
    WithoutMembers(h.bins[b], k) by { assert BinSound(h.c, h.bins[b], b); }
    forall q ensures Binned(h'.c, h'.bins, q) { assert Binned(h.c, h.bins, q); }
  }

  lemma DetachOneBin(h: Heap, b: nat, k: nat, i: nat)
    requires Inv(h) && 1 <= b < NBINS && k < |h.bins[b]| && BinMember(h.c, h.bins[b][k], b) && i < NBINS
    ensures BinSound(Detach(h, b, k).c, Detach(h, b, k).bins[i], i)
  {
    var h', p := Detach(h, b, k), h.bins[b][k];
    var s, t := h.bins[i], h'.bins[i];
    assert BinSound(h.c, s, i);
    if i == b {
      WithoutMembers(s, k);
      assert forall j :: 0 <= j < |t| ==> t[j] == s[if j < k then j else j + 1];
    }
    forall j | 0 <= j < |t| ensures BinMember(h'.c, t[j], i) {
      assert BinMember(h.c, if i == b then s[if j < k then j else j + 1] else s[j], i);
      assert t[j] != p;
    }
  }

  lemma DetachInv(h: Heap, b: nat, k: nat)
    requires Inv(h) && 1 <= b < NBINS && k < |h.bins[b]|
    ensures h.bins[b][k] in h.c && Inv(Detach(h, b, k))
  {
    InBin(h, b, k);
    var p := h.bins[b][k];
    var h' := Detach(h, b, k);
    RetagWf(h.c, p, Free(0));
    RetagRest(h, p, Free(0), h');
    DetachBins(h, b, k);
    RetagFast(h, p, Free(0));
  }

  lemma RetagFast(h: Heap, p: int, k: Kind)
    requires FastOk(h.c, h.fast) && p in h.c && h.c[p].kind.Free? && k.Free?
    ensures FastOk(Retag(h.c, p, k), h.fast)
  {
    var c' := Retag(h.c, p, k);
    forall i | 0 <= i < NFASTBINS ensures FastSound(c', h.fast[i], i) {
      assert FastSound(h.c, h.fast[i], i);
      forall j | 0 <= j < |h.fast[i]| ensures FastMember(c', h.fast[i][j], i) {
        assert FastMember(h.c, h.fast[i][j], i);
      }
    }
    forall q ensures InFastbin(c', h.fast, q) { assert InFastbin(h.c, h.fast, q); }
  }

  /** unlink: the links of chunk k name its neighbours, and wiring those
      together represents the bin without it. */
  lemma DetachRep(m: Mem, h: Heap, heads: seq<int>, b: nat, k: nat)
    requires Inv(h) && Rep(m, h, heads) && 1 <= b < NBINS && k < |h.bins[b]|
    ensures h.bins[b][k] in h.c
    ensures Bk(m, h.bins[b][k]) == At(BinAt(b), h.bins[b], k - 1)
    ensures Fd(m, h.bins[b][k]) == At(BinAt(b), h.bins[b], k + 1)
    ensures Rep(Wire(m, Bk(m, h.bins[b][k]), Fd(m, h.bins[b][k])), Detach(h, b, k), heads)
    ensures UserSame(h.live, m, Wire(m, Bk(m, h.bins[b][k]), Fd(m, h.bins[b][k])))
  {
    InBin(h, b, k);
    var p, s := h.bins[b][k], h.bins[b];
    BinNodesOk(h, b);
    assert ListRep(m, BinAt(b), s);
    UnlinkRep(m, BinAt(b), s, k);
    var x, y := Bk(m, p), Fd(m, p);
    assert IsNode(h.c, At(BinAt(b), s, k - 1)) && IsNode(h.c, At(BinAt(b), s, k + 1));
    WireRest(m, h, heads, x, y);
    RetagHeads(Wire(m, x, y), h.c, p, Free(0));
    var bins' := Detach(h, b, k).bins;
    forall i | 1 <= i < |bins'| ensures ListRep(Wire(m, x, y), BinAt(i), bins'[i]) {
      if i != b {
        assert ListRep(m, BinAt(i), h.bins[i]);
        OtherBin(h, b, i, k - 1);
        OtherBin(h, b, i, k + 1);
        WireOther(m, h, i, x, y);
      }
    }
  }

  lemma OtherBin(h: Heap, b: nat, i: nat, j: int)
    requires Inv(h) && 1 <= b < NBINS && 1 <= i < NBINS && i != b
    ensures At(BinAt(b), h.bins[b], j) !in h.bins[i] && At(BinAt(b), h.bins[b], j) != BinAt(i)
  {
    var x := At(BinAt(b), h.bins[b], j);
    BinNodesOk(h, b);
    if 0 <= j < |h.bins[b]| { InBin(h, b, j); assert Sound(h.c, x); }
    forall k | 0 <= k < |h.bins[i]| ensures h.bins[i][k] != x {
      InBin(h, i, k);
      assert Sound(h.c, h.bins[i][k]);
    }
  }

  lemma RetagHeads(m: Mem, c: Arena, p: int, k: Kind)
    requires HeadsOk(m, c) && p in c && !c[p].kind.Fence? && !k.Fence?
    ensures HeadsOk(m, Retag(c, p, k))
  {
    forall q | q in Retag(c, p, k) ensures HeadOk(m, q, Retag(c, p, k)[q]) {
      assert HeadOk(m, q, c[q]);
    }
  }

  // ----- putting a chunk on a bin -----

  ghost function Attach(h: Heap, p: int, b: nat, k: nat): Heap
    requires b < |h.bins| && k <= |h.bins[b]| && p in h.c
  {
    h.(c := Retag(h.c, p, Free(b)), bins := h.bins[b := With(h.bins[b], k, p)])
  }

  /** p may go into bin b at position k: right bin, and right place in the order. */
  ghost predicate Attachable(h: Heap, p: int, b: nat, k: nat) {
    && p in h.c && h.c[p].kind == Free(0) && p !in h.live
    && 1 <= b < NBINS && b < |h.bins| && k <= |h.bins[b]|
    && (b >= 2 ==>
      && h.c[p].size >= 0 && BinIndex(h.c[p].size) == b
      && (forall j :: 0 <= j < k && h.bins[b][j] in h.c ==> h.c[h.bins[b][j]].size >= h.c[p].size)
      && (forall j :: k <= j < |h.bins[b]| && h.bins[b][j] in h.c ==> h.c[h.bins[b][j]].size <= h.c[p].size))
  }

  lemma WithMembers(s: seq<int>, k: nat, p: int)
    requires Distinct(s) && k <= |s| && p !in s
    ensures Distinct(With(s, k, p))
    ensures forall x :: x in With(s, k, p) <==> x in s || x == p
  {
    var t := With(s, k, p);
    assert t[k] == p;
    assert forall j :: 0 <= j < |t| && j != k ==> t[j] == s[if j < k then j else j - 1];
    forall x | x in s ensures x in t {
      var j :| 0 <= j < |s| && s[j] == x;
      assert t[if j < k then j else j + 1] == x;
    }
  }

  lemma NotBinned(h: Heap, p: int, i: nat)
    requires Inv(h) && p in h.c && h.c[p].kind == Free(0) && i < NBINS
    ensures p !in h.bins[i]
  {
    if p in h.bins[i] {
      var j :| 0 <= j < |h.bins[i]| && h.bins[i][j] == p;
      if i > 0 { InBin(h, i, j); }
    }
  }

  lemma AttachOneBin(h: Heap, p: int, b: nat, k: nat, i: nat)
    requires Inv(h) && Attachable(h, p, b, k) && i < NBINS
    ensures BinSound(Attach(h, p, b, k).c, Attach(h, p, b, k).bins[i], i)
  {
    var h' := Attach(h, p, b, k);
    var s, t := h.bins[i], h'.bins[i];
    assert BinSound(h.c, s, i);
    NotBinned(h, p, i);
    if i == b {
      WithMembers(s, k, p);
      assert t[k] == p;
      assert forall j :: 0 <= j < |t| && j != k ==> t[j] == s[if j < k then j else j - 1];
    }
    forall j | 0 <= j < |t| ensures BinMember(h'.c, t[j], i) {
      if i == b && j != k {
        assert BinMember(h.c, s[if j < k then j else j - 1], i);
      } else if i != b {
        assert BinMember(h.c, s[j], i);
      }
    }
  }

  lemma AttachBins(h: Heap, p: int, b: nat, k: nat)
    requires Inv(h) && Attachable(h, p, b, k)
    ensures BinsOk(Attach(h, p, b, k).c, Attach(h, p, b, k).bins)
  {
    var h' := Attach(h, p, b, k);
    forall i: nat | i < NBINS ensures BinSound(h'.c, h'.bins[i], i) {
      AttachOneBin(h, p, b, k, i);
    }
    NotBinned(h, p, b);
    WithMembers(h.bins[b], k, p) by { assert BinSound(h.c, h.bins[b], b); }
    forall q ensures Binned(h'.c, h'.bins, q) { assert Binned(h.c, h.bins, q); }
  }

  lemma AttachInv(h: Heap, p: int, b: nat, k: nat)
    requires Inv(h) && Attachable(h, p, b, k)
    ensures Inv(Attach(h, p, b, k))
  {
    RetagWf(h.c, p, Free(b));
    RetagRest(h, p, Free(b), Attach(h, p, b, k));
    AttachBins(h, p, b, k);
    RetagFast(h, p, Free(b));
  }

  /** Linking p between two neighbours of a bin represents the longer bin. */
  lemma AttachRep(m: Mem, h: Heap, heads: seq<int>, p: int, b: nat, k: nat)
    requires Inv(h) && Rep(m, h, heads) && Attachable(h, p, b, k)
    ensures var x, y := At(BinAt(b), h.bins[b], k - 1), At(BinAt(b), h.bins[b], k);
      var m' := Wire(Wire(m, x, p), p, y);
      Rep(m', Attach(h, p, b, k), heads) && UserSame(h.live, m, m')
  {
    var s := h.bins[b];
    var x, y := At(BinAt(b), s, k - 1), At(BinAt(b), s, k);
    var m1 := Wire(m, x, p);
    var m2 := Wire(m1, p, y);
    BinNodesOk(h, b);
    NotBinned(h, p, b);
    assert Sound(h.c, p) && IsNode(h.c, p);
    assert ListRep(m, BinAt(b), s);
    InsertRep(m, BinAt(b), s, k, p);
    assert IsNode(h.c, x) && IsNode(h.c, y);
    WireRest(m, h, heads, x, p);
    WireRest(m1, h, heads, p, y);
    RetagHeads(m2, h.c, p, Free(b));
    var bins' := Attach(h, p, b, k).bins;
    forall i | 1 <= i < |bins'| ensures ListRep(m2, BinAt(i), bins'[i]) {
      if i != b {
        AttachOther(m, h, p, b, k, i);
      }
    }
    assert UserSame(h.live, m, m1) && UserSame(h.live, m1, m2);
    SameTwice(h.live, m, m1, m2);
  }

  lemma SameTwice(live: map<int, Block>, m: Mem, m1: Mem, m2: Mem)
    requires UserSame(live, m, m1) && UserSame(live, m1, m2)
    ensures UserSame(live, m, m2)
  {
    forall p, a | p in live && p + 8 <= a < live[p].end ensures Rd(m2, a) == Rd(m, a) {
      assert Rd(m1, a) == Rd(m, a);
    }
  }

  lemma SameForFewer(live: map<int, Block>, live': map<int, Block>, m: Mem, m': Mem)
    requires UserSame(live', m, m') && forall p :: p in live ==> p in live' && live'[p] == live[p]
    ensures UserSame(live, m, m')
  {
    forall p, a | p in live && p + 8 <= a < live[p].end ensures Rd(m', a) == Rd(m, a) {
      assert live'[p] == live[p];
    }
  }

  lemma AttachOther(m: Mem, h: Heap, p: int, b: nat, k: nat, i: nat)
    requires Inv(h) && Attachable(h, p, b, k) && 1 <= i < NBINS && i != b
    requires ListRep(m, BinAt(i), h.bins[i])
    ensures var x, y := At(BinAt(b), h.bins[b], k - 1), At(BinAt(b), h.bins[b], k);
      ListRep(Wire(Wire(m, x, p), p, y), BinAt(i), h.bins[i])
  {
    var x, y := At(BinAt(b), h.bins[b], k - 1), At(BinAt(b), h.bins[b], k);
    BinNodesOk(h, b);
    assert IsNode(h.c, x) && IsNode(h.c, y) && Sound(h.c, p);
    OtherBin(h, b, i, k - 1);
    OtherBin(h, b, i, k);
    NotBinned(h, p, i);
    WireOther(m, h, i, x, p);
    WireOther(Wire(m, x, p), h, i, p, y);
  }

  // ----- fastbins -----

  ghost function FastPush(h: Heap, p: int): Heap
    requires p in h.c && 0 <= FastbinIndex(h.c[p].size) < |h.fast|
  {
    var i := FastbinIndex(h.c[p].size);
    h.(c := Retag(h.c, p, Fast), fast := h.fast[i := [p] + h.fast[i]])
  }

  ghost function FastPop(h: Heap, i: nat): Heap
    requires i < |h.fast| && h.fast[i] != [] && h.fast[i][0] in h.c
  {
    h.(c := Retag(h.c, h.fast[i][0], Used), fast := h.fast[i := h.fast[i][1..]])
  }

  /** Fastbins hold in-use chunks, so the bins do not notice. */
  lemma RetagBins(h: Heap, p: int, k: Kind)
    requires BinsOk(h.c, h.bins) && p in h.c && !h.c[p].kind.Free? && !k.Free?
    ensures BinsOk(Retag(h.c, p, k), h.bins)
  {
    var c' := Retag(h.c, p, k);
    forall i: nat | i < NBINS ensures BinSound(c', h.bins[i], i) {
      assert BinSound(h.c, h.bins[i], i);
      forall j | 0 <= j < |h.bins[i]| ensures BinMember(c', h.bins[i][j], i) {
        assert BinMember(h.c, h.bins[i][j], i);
      }
    }
    forall q ensures Binned(c', h.bins, q) { assert Binned(h.c, h.bins, q); }
  }

  lemma InFast(h: Heap, i: nat, k: nat)
    requires Inv(h) && i < NFASTBINS && k < |h.fast[i]|
    ensures FastMember(h.c, h.fast[i][k], i) && h.fast[i][k] !in h.live
  {
    var p := h.fast[i][k];
    assert FastSound(h.c, h.fast[i], i);
    assert FastMember(h.c, p, i);
    if p in h.live {
      assert LiveSound(h, p);
      if p in h.mm { ChunkNotMapped(h, p); }
    }
  }

  lemma FastPopInv(h: Heap, i: nat)
    requires Inv(h) && i < NFASTBINS && h.fast[i] != []
    ensures h.fast[i][0] in h.c && Inv(FastPop(h, i))
  {
    InFast(h, i, 0);
    var p, h' := h.fast[i][0], FastPop(h, i);
    RetagWf(h.c, p, Used);
    RetagRest(h, p, Used, h');
    RetagBins(h, p, Used);
    forall j: nat | j < NFASTBINS ensures FastSound(h'.c, h'.fast[j], j) {
      FastPopOne(h, i, j);
    }
    forall q ensures InFastbin(h'.c, h'.fast, q) {
      assert InFastbin(h.c, h.fast, q);
      assert FastSound(h.c, h.fast[i], i);
      assert h.fast[i] == [p] + h.fast[i][1..];
    }
  }

  lemma FastPopOne(h: Heap, i: nat, j: nat)
    requires Inv(h) && i < NFASTBINS && h.fast[i] != [] && j < NFASTBINS && FastMember(h.c, h.fast[i][0], i)
    ensures FastSound(FastPop(h, i).c, FastPop(h, i).fast[j], j)
  {
    var p, h' := h.fast[i][0], FastPop(h, i);
    var s, t := h.fast[j], h'.fast[j];
    assert FastSound(h.c, s, j);
    forall k | 0 <= k < |t| ensures FastMember(h'.c, t[k], j) {
      assert FastMember(h.c, s[if i == j then k + 1 else k], j);
    }
  }

  lemma FastPushInv(h: Heap, p: int)
    requires Inv(h) && p in h.c && h.c[p].kind.Used? && p !in h.live && h.c[p].size <= MAX_FAST
    ensures 0 <= FastbinIndex(h.c[p].size) < |h.fast| && Inv(FastPush(h, p))
  {
    assert Sound(h.c, p);
    var i, h' := FastbinIndex(h.c[p].size), FastPush(h, p);
    RetagWf(h.c, p, Fast);
    RetagRest(h, p, Fast, h');
    RetagBins(h, p, Fast);
    forall j: nat | j < NFASTBINS ensures FastSound(h'.c, h'.fast[j], j) {
      FastPushOne(h, p, j);
    }
    forall q ensures InFastbin(h'.c, h'.fast, q) { assert InFastbin(h.c, h.fast, q); }
  }

  lemma FastPushOne(h: Heap, p: int, j: nat)
    requires Inv(h) && p in h.c && h.c[p].kind.Used? && p !in h.live && h.c[p].size <= MAX_FAST
    requires 0 <= FastbinIndex(h.c[p].size) < |h.fast| && j < NFASTBINS
    ensures FastSound(FastPush(h, p).c, FastPush(h, p).fast[j], j)
  {
    var i, h' := FastbinIndex(h.c[p].size), FastPush(h, p);
    var s, t := h.fast[j], h'.fast[j];
    assert Sound(h.c, p) && FastSound(h.c, s, j);
    assert forall k :: 0 <= k < |s| ==> FastMember(h.c, s[k], j);
    forall k | 0 <= k < |t| ensures FastMember(h'.c, t[k], j) {
      if i != j {
        assert FastMember(h.c, s[k], j);
      } else if k > 0 {
        assert FastMember(h.c, s[k - 1], j) && t[k] == s[k - 1];
      }
    }
  }

  lemma FastPopRepr(m: Mem, h: Heap, heads: seq<int>, i: nat)
    requires Inv(h) && Rep(m, h, heads) && i < NFASTBINS && h.fast[i] != []
    ensures h.fast[i][0] in h.c && heads[i] == h.fast[i][0]
    ensures Rep(m, FastPop(h, i), heads[i := Fd(m, heads[i])])
  {
    InFast(h, i, 0);
    var p, h' := h.fast[i][0], FastPop(h, i);
    RetagHeads(m, h.c, p, Used);
    var heads' := heads[i := Fd(m, heads[i])];
    forall j | 0 <= j < |h'.fast| ensures FastRep(m, heads'[j], h'.fast[j]) {
      assert FastRep(m, heads[j], h.fast[j]);
      if j == i { FastPopRep(m, heads[i], h.fast[i]); }
    }
    assert FastRep(m, heads[i], h.fast[i]);
  }

  lemma FastPushRepr(m: Mem, h: Heap, heads: seq<int>, p: int)
    requires Inv(h) && Rep(m, h, heads)
    requires p in h.c && h.c[p].kind.Used? && p !in h.live && h.c[p].size <= MAX_FAST
    ensures 0 <= FastbinIndex(h.c[p].size) < |heads| && |h.fast| == |heads|
    ensures var i := FastbinIndex(h.c[p].size); var m' := m[p + 8 := heads[i]];
      Rep(m', FastPush(h, p), heads[i := p]) && UserSame(h.live, m, m')
  {
    assert Sound(h.c, p);
    var i, h' := FastbinIndex(h.c[p].size), FastPush(h, p);
    var m' := m[p + 8 := heads[i]];
    FdWriteRest(m, h, p, heads[i]);
    RetagHeads(m', h.c, p, Fast);
    var heads' := heads[i := p];
    forall j | 0 <= j < |h'.fast| ensures FastRep(m', heads'[j], h'.fast[j]) {
      FdWriteFast(m, h, heads, p, j, heads[i]);
    }
  }

  /** Writing the fd word of a used chunk that nobody owns. */
  lemma FdWriteRest(m: Mem, h: Heap, p: int, v: int)
    requires Inv(h) && HeadsOk(m, h.c) && BinLists(m, h.bins) && MapHeads(m, h.mm) && Rd(m, BINS + 4) == 0
    requires p in h.c && h.c[p].kind.Used? && p !in h.live
    ensures var m' := m[p + 8 := v];
      HeadsOk(m', h.c) && BinLists(m', h.bins) && MapHeads(m', h.mm) && Rd(m', BINS + 4) == 0 && UserSame(h.live, m, m')
  {
    var m' := m[p + 8 := v];
    assert Sound(h.c, p) && Contained(h.regions, p, h.c[p]);
    forall q | q in h.c ensures HeadOk(m', q, h.c[q]) {
      assert HeadOk(m, q, h.c[q]) && Sound(h.c, q) && Apart(h.c, p, q);
    }
    forall i | 1 <= i < |h.bins| ensures ListRep(m', BinAt(i), h.bins[i]) {
      FdWriteBin(m, h, p, v, i);
    }
    forall q | q in h.mm ensures MapHead(m', q, h.mm[q]) {
      assert MapHead(m, q, h.mm[q]) && MapSound(h, q);
      MapOutsideRegion(h, q, h.c[p].reg);
    }
    FdWriteUser(m, h, p, v);
  }

  lemma FdWriteUser(m: Mem, h: Heap, p: int, v: int)
    requires Inv(h) && p in h.c && h.c[p].kind.Used? && p !in h.live
    ensures UserSame(h.live, m, m[p + 8 := v])
  {
    assert Sound(h.c, p) && Contained(h.regions, p, h.c[p]);
    forall q, a | q in h.live && q + 8 <= a < h.live[q].end ensures Rd(m[p + 8 := v], a) == Rd(m, a) {
      assert LiveSound(h, q);
      if q in h.mm {
        MapOutsideRegion(h, q, h.c[p].reg);
      } else {
        assert Apart(h.c, p, q) && Apart(h.c, q, p);
      }
    }
  }

  lemma FdWriteBin(m: Mem, h: Heap, p: int, v: int, i: nat)
    requires Inv(h) && p in h.c && h.c[p].kind.Used? && 1 <= i < NBINS
    requires ListRep(m, BinAt(i), h.bins[i])
    ensures ListRep(m[p + 8 := v], BinAt(i), h.bins[i])
  {
    assert Sound(h.c, p);
    var s := h.bins[i];
    forall j | 0 <= j < |s| ensures s[j] != p && s[j] % 8 == 0 {
      InBin(h, i, j);
      assert Sound(h.c, s[j]);
    }
    ListFrame(m, m[p + 8 := v], BinAt(i), s);
  }

  lemma FdWriteFast(m: Mem, h: Heap, heads: seq<int>, p: int, j: nat, v: int)
    requires Inv(h) && FastLists(m, h.fast, heads) && j < NFASTBINS
    requires p in h.c && h.c[p].kind.Used? && h.c[p].size <= MAX_FAST
    requires var i := FastbinIndex(h.c[p].size); 0 <= i < NFASTBINS && v == heads[i]
    ensures var i := FastbinIndex(h.c[p].size);
      FastRep(m[p + 8 := v], heads[i := p][j], FastPush(h, p).fast[j])
  {
    var i := FastbinIndex(h.c[p].size);
    assert Sound(h.c, p);
    var s := h.fast[j];
    assert FastRep(m, heads[j], s);
    forall k | 0 <= k < |s| ensures s[k] != p && s[k] % 8 == 0 {
      InFast(h, j, k);
      assert Sound(h.c, s[k]);
    }
    if i == j {
      FastPushRep(m, heads[j], s, p);
    } else {
      FastFrame(m, m[p + 8 := v], heads[j], s);
    }
  }
}
