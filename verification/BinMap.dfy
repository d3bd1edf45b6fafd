/** The bitmap of possibly non-empty bins, and the search that uses it. */
module BinMap {
  import opened Word32
  import opened MallocSizes
  import opened ChunkMemory
  import opened HeapState

  const BINMAPSIZE := 3

  /** Bit j of a word. */
  ghost predicate BitAt(w: nat, j: nat)
    decreases j, w
  {
    if j == 0 then w % 2 == 1 else BitAt(w / 2, j - 1)
  }

  function Or(a: nat, b: nat): nat
    decreases a, b
  {
    if a == 0 then b else if b == 0 then a
    else (if a % 2 == 1 || b % 2 == 1 then 1 else 0) + 2 * Or(a / 2, b / 2)
  }

  lemma {:induction false} ZeroBits(j: nat)
    ensures !BitAt(0, j)
  {
    if j > 0 { ZeroBits(j - 1); }
  }

  lemma OrHalf(a: nat, b: nat)
    ensures Or(a, b) / 2 == Or(a / 2, b / 2) && (Or(a, b) % 2 == 1 <==> a % 2 == 1 || b % 2 == 1)
  {
  }

  lemma AndHalf(a: nat, b: nat)
    ensures And(a, b) / 2 == And(a / 2, b / 2) && (And(a, b) % 2 == 1 <==> a % 2 == 1 && b % 2 == 1)
  {
  }

  lemma {:induction false} OrBits(a: nat, b: nat, j: nat)
    ensures BitAt(Or(a, b), j) <==> BitAt(a, j) || BitAt(b, j)
    decreases j
  {
    OrHalf(a, b);
    if j > 0 { OrBits(a / 2, b / 2, j - 1); }
  }

  lemma {:induction false} AndBits(a: nat, b: nat, j: nat)
    ensures BitAt(And(a, b), j) <==> BitAt(a, j) && BitAt(b, j)
    decreases j
  {
    AndHalf(a, b);
    if j > 0 { AndBits(a / 2, b / 2, j - 1); }
  }

  lemma {:induction false} Pow2Bits(n: nat, j: nat)
    ensures BitAt(Pow2(n), j) <==> n == j
    decreases j
  {
    if n == 0 {
      if j > 0 { ZeroBits(j - 1); }
    } else if j > 0 {
      Pow2Bits(n - 1, j - 1);
    }
  }

  lemma {:induction false} Pow2Positive(n: nat)
    ensures 1 <= Pow2(n)
  {
    if n > 0 { Pow2Positive(n - 1); }
  }

  lemma {:induction false} ComplementBits(x: nat, n: nat, j: nat)
    requires x < Pow2(n) && j < n
    ensures BitAt(Pow2(n) - 1 - x, j) <==> !BitAt(x, j)
    decreases j
  {
    if j > 0 {
      var y := Pow2(n) - 1 - x;
      assert y / 2 == Pow2(n - 1) - 1 - x / 2;
      ComplementBits(x / 2, n - 1, j - 1);
    }
  }

  lemma Pow2Word()
    ensures Pow2(32) == WORD
  {
    assert Pow2(12) == 0x1000;
    Pow2Step(12);
    Pow2Step(16);
    Pow2Step(20);
    Pow2Step(24);
    Pow2Step(28);
  }

  lemma Pow2Step(n: nat)
    ensures Pow2(n + 4) == 16 * Pow2(n)
  {
    assert Pow2(n + 4) == 2 * Pow2(n + 3) && Pow2(n + 3) == 2 * Pow2(n + 2);
    assert Pow2(n + 2) == 2 * Pow2(n + 1) && Pow2(n + 1) == 2 * Pow2(n);
  }

  lemma {:induction false} Pow2Grows(a: nat, b: nat)
    requires a < b
    ensures 2 * Pow2(a) <= Pow2(b)
    decreases b
  {
    if a < b - 1 { Pow2Grows(a, b - 1); Pow2Positive(b - 1); }
  }

  lemma NotBits(x: nat, j: nat)
    requires x < WORD && j < 32
    ensures Not(x) < WORD && (BitAt(Not(x), j) <==> !BitAt(x, j))
  {
    Pow2Word();
    ComplementBits(x, 32, j);
  }

  lemma {:induction false} BelowPow2(w: nat, j: nat)
    requires w < Pow2(j)
    ensures forall k :: j <= k ==> !BitAt(w, k)
    decreases j
  {
    if j == 0 {
      forall k: nat ensures !BitAt(w, k) { ZeroBits(k); }
    } else {
      BelowPow2(w / 2, j - 1);
    }
  }

  /** A word at least 2^j has a set bit at j or above. */
  lemma {:induction false} AbovePow2(w: nat, j: nat, n: nat) returns (k: nat)
    requires Pow2(j) <= w < Pow2(n)
    ensures j <= k < n && BitAt(w, k)
    decreases n
  {
    Pow2Positive(j);
    if j == 0 && w % 2 == 1 {
      k := 0;
    } else {
      var k' := AbovePow2(w / 2, if j == 0 then 0 else j - 1, n - 1);
      k := k' + 1;
    }
  }

  // ----- the map -----

  ghost predicate MapOk(b: seq<nat>) {
    |b| == BINMAPSIZE + 1 && b[BINMAPSIZE] == 0 && forall k :: 0 <= k < |b| ==> b[k] < WORD
  }

  ghost predicate Marked(b: seq<nat>, i: nat) {
    i / 32 < |b| && BitAt(b[i / 32], i % 32)
  }

  /** mark_bin */
  function Mark(b: seq<nat>, i: nat): seq<nat>
    requires i / 32 < |b|
  {
    b[i / 32 := Or(b[i / 32], Pow2(i % 32))]
  }

  lemma MarkMarks(b: seq<nat>, i: nat, k: nat)
    requires i / 32 < |b|
    ensures Marked(Mark(b, i), k) <==> Marked(b, k) || k == i
  {
    OrBits(b[i / 32], Pow2(i % 32), k % 32);
    Pow2Bits(i % 32, k % 32);
    assert k == 32 * (k / 32) + k % 32 && i == 32 * (i / 32) + i % 32;
  }

  lemma {:induction false} OrBound(a: nat, b: nat, n: nat)
    requires a < Pow2(n) && b < Pow2(n)
    ensures Or(a, b) < Pow2(n)
    decreases n
  {
    if n > 0 && a > 0 && b > 0 { OrBound(a / 2, b / 2, n - 1); }
  }

  lemma MarkOk(b: seq<nat>, i: nat)
    requires MapOk(b) && i < NBINS
    ensures i / 32 < BINMAPSIZE && MapOk(Mark(b, i))
  {
    Pow2Word();
    Pow2Grows(i % 32, 32);
    Pow2Positive(i % 32);
    OrBound(b[i / 32], Pow2(i % 32), 32);
  }

  ghost predicate EmptyBin(m: Mem, i: nat) { Bk(m, BinAt(i)) == BinAt(i) }

  /** Every bin whose bit is clear is empty. */
  ghost predicate Covers(m: Mem, b: seq<nat>) {
    forall i: nat {:trigger Marked(b, i)} :: 2 <= i < NBINS && !EmptyBin(m, i) ==> Marked(b, i)
  }

  lemma ClearBit(w: nat, j: nat, k: nat)
    requires w < WORD && j < 32 && k < 32
    ensures And(w, Not(Pow2(j))) < WORD
    ensures BitAt(And(w, Not(Pow2(j))), k) <==> BitAt(w, k) && k != j
  {
    Pow2Word();
    Pow2Grows(j, 32);
    Pow2Positive(j);
    NotBits(Pow2(j), k);
    AndBits(w, Not(Pow2(j)), k);
    Pow2Bits(j, k);
  }

  /** Bit position of the search: bit is 1 << j, or 0 once it is shifted out. */
  ghost predicate BitIs(bit: nat, j: nat) {
    j <= 32 && bit == if j < 32 then Pow2(j) else 0
  }

  lemma ShiftBit(bit: nat, j: nat)
    requires BitIs(bit, j) && j < 32
    ensures BitIs(Shl(bit, 1), j + 1)
  {
    Pow2Word();
    if j < 31 { Pow2Grows(j + 1, 32); Pow2Positive(j + 1); }
    assert Shl(bit, 1) == Shl(Wrap(2 * bit), 0);
  }

  lemma TestBit(bit: nat, j: nat, w: nat)
    requires BitIs(bit, j) && j < 32
    ensures And(bit, w) == 0 <==> !BitAt(w, j)
  {
    TestPow2(j, w);
  }

  lemma {:induction false} TestPow2(j: nat, w: nat)
    ensures And(Pow2(j), w) == 0 <==> !BitAt(w, j)
    decreases j
  {
    Pow2Positive(j);
    if w == 0 {
      ZeroBits(j);
    } else if j > 0 {
      TestPow2(j - 1, w / 2);
    } else {
      assert And(1, w) == w % 2 + 2 * And(0, w / 2);
    }
  }

  /** Advance to the next set bit of a map word that has one. */
  method NextBit(w: nat, bit0: nat, ghost j0: nat, i0: nat) returns (bit: nat, ghost j: nat, i: nat)
    requires w < WORD && j0 < 32 && BitIs(bit0, j0) && bit0 <= w
    ensures j0 <= j < 32 && BitIs(bit, j) && BitAt(w, j)
    ensures i == i0 + (j - j0)
    ensures forall k :: j0 <= k < j ==> !BitAt(w, k)
  {
    bit, j, i := bit0, j0, i0;
    Pow2Word();
    ghost var top := AbovePow2(w, j0, 32);
    TestBit(bit, j, w);
    while And(bit, w) == 0
      invariant j0 <= j <= top < 32 && BitAt(w, top) && BitIs(bit, j) && i == i0 + (j - j0)
      invariant forall k :: j0 <= k < j ==> !BitAt(w, k)
      invariant And(bit, w) == 0 <==> !BitAt(w, j)
      decreases top - j
    {
      ShiftBit(bit, j);
      bit, j, i := Shl(bit, 1), j + 1, i + 1;
      TestBit(bit, j, w);
    }
  }

  lemma ClearKeeps(m: Mem, b: seq<nat>, i: nat)
    requires MapOk(b) && Covers(m, b) && i < NBINS && EmptyBin(m, i)
    ensures i / 32 < |b| && i % 32 < 32
    ensures var b' := b[i / 32 := And(b[i / 32], Not(Pow2(i % 32)))]; MapOk(b') && Covers(m, b')
  {
    var b' := b[i / 32 := And(b[i / 32], Not(Pow2(i % 32)))];
    ClearBit(b[i / 32], i % 32, 0);
    forall k: nat | 2 <= k < NBINS && !EmptyBin(m, k) ensures Marked(b', k) {
      assert Marked(b, k);
      ClearBit(b[i / 32], i % 32, k % 32);
      assert k == 32 * (k / 32) + k % 32 && i == 32 * (i / 32) + i % 32;
    }
  }

  /** Bins whose bits are clear are empty. */
  lemma ClearBitsEmpty(m: Mem, b: seq<nat>, blk: nat, lo: nat, hi: nat)
    requires MapOk(b) && Covers(m, b) && blk < BINMAPSIZE && lo <= hi <= 32
    requires forall k :: lo <= k < hi ==> !BitAt(b[blk], k)
    ensures forall i: nat :: 2 <= i && 32 * blk + lo <= i < 32 * blk + hi ==> EmptyBin(m, i)
  {
    forall i: nat | 2 <= i && 32 * blk + lo <= i < 32 * blk + hi ensures EmptyBin(m, i) {
      assert i / 32 == blk && i % 32 == i - 32 * blk;
      assert EmptyBin(m, i) || Marked(b, i);
    }
  }

  /** Move on to the next map word that is not zero, or past the last one. */
  method SkipBlocks(m: Mem, b: seq<nat>, block0: nat) returns (block: nat)
    requires MapOk(b) && Covers(m, b) && block0 < BINMAPSIZE
    ensures block0 < block <= BINMAPSIZE && (block < BINMAPSIZE ==> b[block] != 0)
    ensures forall i: nat :: 2 <= i && 32 * (block0 + 1) <= i < 32 * block ==> EmptyBin(m, i)
  {
    block := block0 + 1;
    while block < BINMAPSIZE && b[block] == 0
      invariant block0 < block <= BINMAPSIZE
      invariant forall i: nat :: 2 <= i && 32 * (block0 + 1) <= i < 32 * block ==> EmptyBin(m, i)
    {
      forall k: nat ensures !BitAt(b[block], k) { ZeroBits(k); }
      ClearBitsEmpty(m, b, block, 0, 32);
      block := block + 1;
    }
  }

  /** The search from the bin after idx: the lowest non-empty bin above idx, or
      NBINS if there is none. Bits of bins found empty are cleared. */
  method FindBin(m: Mem, b0: seq<nat>, idx: nat) returns (i: nat, b: seq<nat>)
    requires MapOk(b0) && Covers(m, b0) && 2 <= idx < NBINS
    ensures MapOk(b) && Covers(m, b)
    ensures idx < i <= NBINS && (i < NBINS ==> !EmptyBin(m, i))
    ensures forall k: nat :: idx < k < i ==> EmptyBin(m, k)
  {
    b, i := b0, idx + 1;
    var block: nat := i / 32;
    var w: nat := b[block];
    var bit: nat := Shl(1, i % 32);
    ghost var j: nat := i % 32;
    ShiftsToPow2(0, j);
    while true
      invariant MapOk(b) && Covers(m, b) && block <= BINMAPSIZE && w == b[block]
      invariant j <= 32 && BitIs(bit, j) && i == 32 * block + j
      invariant idx < i <= NBINS
      invariant forall k: nat :: idx < k < i ==> EmptyBin(m, k)
      decreases NBINS - i
    {
      if bit > w || bit == 0 {
        if block == BINMAPSIZE { return; }
        if j < 32 { Pow2Positive(j); BelowPow2(w, j); }
        ClearBitsEmpty(m, b, block, j, 32);
        var block' := SkipBlocks(m, b, block);
        block, i, j := block', 32 * block', 0;
        if block == BINMAPSIZE { return; }
        w, bit := b[block], 1;
      }
      ghost var j1: nat := j;
      bit, j, i := NextBit(w, bit, j, i);
      ClearBitsEmpty(m, b, block, j1, j);
      if Bk(m, BinAt(i)) != BinAt(i) { return; }
      assert i / 32 == block && i % 32 == j;
      ClearKeeps(m, b, i);
      b := b[block := And(w, Not(bit))];
      w := b[block];
      ShiftBit(bit, j);
      bit, i, j := Shl(bit, 1), i + 1, j + 1;
    }
  }

  lemma {:induction false} ShiftsToPow2(j: nat, n: nat)
    requires j + n < 32
    ensures Shl(Pow2(j), n) == Pow2(j + n)
    decreases n
  {
    if n > 0 {
      Pow2Word();
      Pow2Grows(j + 1, 32);
      Pow2Positive(j + 1);
      assert Wrap(2 * Pow2(j)) == Pow2(j + 1);
      ShiftsToPow2(j + 1, n - 1);
    }
  }
}
