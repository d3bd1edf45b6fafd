/** Request padding and bin numbering: the arithmetic macros of deva/malloc.c
    for a build with 4-byte words, 8-byte alignment and 16-byte minimal chunks. */
module MallocSizes {
  import opened Word32

  const MINSIZE := 16
  const ALIGN_MASK := 7
  const NBINS := 96
  const NSMALLBINS := 32
  const MIN_LARGE_SIZE := 256
  const NFASTBINS := 10
  const MAX_FAST := 72
  const PAGE := 4096

  predicate RequestOutOfRange(req: int) { req >= WORD - 2 * MINSIZE }

  function RoundDown8(x: int): int { x - x % 8 }

  function Request2Size(req: int): int {
    if req + 4 + ALIGN_MASK < MINSIZE then MINSIZE else RoundDown8(req + 4 + ALIGN_MASK)
  }

  /** The padded size is the least legal chunk size that leaves room for the
      request plus one header word, and never wraps for an accepted request. */
  lemma Request2SizeIsLeast(req: nat, s: int)
    ensures Request2Size(req) % 8 == 0 && MINSIZE <= Request2Size(req)
    ensures req + 4 <= Request2Size(req)
    ensures s % 8 == 0 && MINSIZE <= s && req + 4 <= s ==> Request2Size(req) <= s
    ensures !RequestOutOfRange(req) ==> Request2Size(req) + MINSIZE < WORD
  {
  }

  /** Re-entering malloc with nb - MALLOC_ALIGN_MASK asks for exactly nb again. */
  lemma Request2SizeReentry(nb: int)
    requires nb % 8 == 0 && MINSIZE <= nb
    ensures Request2Size(nb - ALIGN_MASK) == nb
  {
  }

  predicate InSmallbinRange(sz: int) { sz < MIN_LARGE_SIZE }

  function SmallbinIndex(sz: int): int { sz / 8 }

  function FastbinIndex(sz: int): int { sz / 8 - 2 }

  /** Bitwise and of two non-negative numbers. */
  function And(a: nat, b: nat): (r: nat)
    ensures r <= a && r <= b
    decreases a
  {
    if a == 0 || b == 0 then 0 else (if a % 2 == 1 && b % 2 == 1 then 1 else 0) + 2 * And(a / 2, b / 2)
  }

  /** Left shift of a 32-bit word, one doubling per step. */
  function Shl(x: nat, n: nat): nat
    decreases n, x
  {
    if n == 0 then x else Shl(Wrap(2 * x), n - 1)
  }

  /** Logical right shift, one halving per step. */
  function Shr(x: nat, n: nat): nat
    decreases n, x
  {
    if n == 0 then x else Shr(x / 2, n - 1)
  }

  /** Complement of a 32-bit word. */
  function Not(x: nat): nat { Wrap(WORD - 1 - x) }

  /** ((x - threshold) >> 16) & step: step if x is below the threshold, else 0. */
  function BorrowMask(x: nat, threshold: nat, step: nat): nat {
    And(Wrap(x - threshold) / 0x10000, step)
  }

  /** The branch-free search for the highest set bit, on 32-bit unsigned words. */
  function HighestBitBranchFree(x: nat): int {
    var n := BorrowMask(x, 0x100, 8);
    var x1 := Shl(x, n);
    var m1 := BorrowMask(x1, 0x1000, 4);
    var x2 := Shl(x1, m1);
    var m2 := BorrowMask(x2, 0x4000, 2);
    var x3 := Shl(x2, m2) / 0x4000;
    13 - (n + m1 + m2) + And(x3, Not(x3 / 2))
  }

  function FloorLog2(x: nat): nat
    requires x > 0
  {
    if x == 1 then 0 else 1 + FloorLog2(x / 2)
  }

  function Pow2(n: nat): nat { if n == 0 then 1 else 2 * Pow2(n - 1) }

  /** FloorLog2 is the floor of the binary logarithm. */
  lemma {:induction false} FloorLog2Brackets(x: nat)
    requires x > 0
    ensures Pow2(FloorLog2(x)) <= x < 2 * Pow2(FloorLog2(x))
  {
    if x > 1 {
      FloorLog2Brackets(x / 2);
    }
  }

  lemma {:induction false} FloorLog2Unique(x: nat, m: nat)
    requires Pow2(m) <= x < 2 * Pow2(m)
    ensures x > 0 && FloorLog2(x) == m
    decreases m
  {
    if m > 0 {
      FloorLog2Unique(x / 2, m - 1);
    }
  }

  lemma {:induction false} FloorLog2Monotone(x: nat, y: nat)
    requires 0 < x <= y
    ensures FloorLog2(x) <= FloorLog2(y)
  {
    if x > 1 {
      FloorLog2Monotone(x / 2, y / 2);
    }
  }

  lemma AllOnesMask(step: nat)
    requires step == 2 || step == 4 || step == 8
    ensures And(0xFFFF, step) == step
  {
    assert And(0xFFFF, 8) == 8 && And(0xFFFF, 4) == 4 && And(0xFFFF, 2) == 2;
  }

  lemma BorrowMaskValue(x: nat, threshold: nat, step: nat)
    requires x < 0x10000 && 0 < threshold <= 0x10000
    requires step == 2 || step == 4 || step == 8
    ensures BorrowMask(x, threshold, step) == if x < threshold then step else 0
  {
    if x < threshold {
      assert Wrap(x - threshold) == WORD + x - threshold;
      assert Wrap(x - threshold) / 0x10000 == 0xFFFF;
      AllOnesMask(step);
    } else {
      assert Wrap(x - threshold) / 0x10000 == 0;
    }
  }

  /** A shift that loses no bit adds its distance to the logarithm. */
  lemma {:induction false} FloorLog2Shl(x: nat, n: nat)
    requires 0 < x && FloorLog2(x) + n <= 15
    ensures Shl(x, n) > 0 && FloorLog2(Shl(x, n)) == FloorLog2(x) + n
    decreases n
  {
    if n > 0 {
      assert 2 * x / 2 == x;
      assert FloorLog2(2 * x) == FloorLog2(x) + 1;
      BelowWord(2 * x);
      FloorLog2Shl(2 * x, n - 1);
    }
  }

  lemma BelowWord(x: nat)
    requires 0 < x && FloorLog2(x) <= 15
    ensures x < 0x10000
  {
    assert Pow2(15) == 0x8000;
    FloorLog2Unique(0x10000, 16);
    if x >= 0x10000 {
      FloorLog2Monotone(0x10000, x);
    }
  }

  /** The branch-free code computes the floor of the binary logarithm. */
  lemma HighestBitBranchFreeIsFloorLog2(x: nat)
    requires 0 < x < 0x10000
    ensures HighestBitBranchFree(x) == FloorLog2(x)
  {
    LogBelow(x, 0x10000);
    var x1 := NormalizeStep(x, 0x100, 8);
    LogBelow(x1, 0x10000);
    var x2 := NormalizeStep(x1, 0x1000, 4);
    LogBelow(x2, 0x10000);
    var x3 := NormalizeStep(x2, 0x4000, 2);
    HighestOfTwoBits(x3);
  }

  lemma LogBelow(x: nat, bound: nat)
    requires 0 < x < bound && bound == 0x10000
    ensures FloorLog2(x) <= 15
  {
    FloorLog2Monotone(x, 0xFFFF);
    assert FloorLog2(0xFFFF) == 15;
  }

  /** One narrowing step: shift left until the word reaches the threshold. */
  lemma NormalizeStep(x: nat, threshold: nat, step: nat) returns (y: nat)
    requires 0 < x < 0x10000 && FloorLog2(x) <= 15
    requires (threshold, step) in {(0x100, 8), (0x1000, 4), (0x4000, 2)}
    requires step == 4 ==> x >= 0x100
    requires step == 2 ==> x >= 0x1000
    ensures y == Shl(x, BorrowMask(x, threshold, step)) && threshold <= y < 0x10000
    ensures FloorLog2(y) == FloorLog2(x) + BorrowMask(x, threshold, step)
  {
    var n := BorrowMask(x, threshold, step);
    BorrowMaskValue(x, threshold, step);
    y := Shl(x, n);
    if x < threshold {
      ShlSmall(x, step);
      assert FloorLog2(0xFF) == 7 && FloorLog2(0xFFF) == 11 && FloorLog2(0x3FFF) == 13;
      FloorLog2Monotone(x, threshold - 1);
    }
    FloorLog2Shl(x, n);
  }

  lemma ShlByTwo(x: nat)
    requires x < 0x1000_0000
    ensures Shl(x, 2) == 4 * x
  {
    assert Shl(x, 2) == Shl(2 * x, 1) == Shl(4 * x, 0);
  }

  lemma ShlSmall(x: nat, step: nat)
    requires x < 0x4000
    ensures step == 2 ==> Shl(x, step) == 4 * x
    ensures step == 4 ==> Shl(x, step) == 16 * x
    ensures step == 8 ==> Shl(x, step) == 256 * x
  {
    ShlByTwo(x);
    ShlByTwo(4 * x);
    ShlByTwo(16 * x);
    ShlByTwo(64 * x);
    ShlTwice(x, 2, 2);
    ShlTwice(x, 2, 6);
    ShlTwice(4 * x, 2, 4);
    ShlTwice(16 * x, 2, 2);
  }

  lemma {:induction false} ShlTwice(x: nat, a: nat, b: nat)
    ensures Shl(x, a + b) == Shl(Shl(x, a), b)
    decreases a
  {
    if a > 0 {
      ShlTwice(Wrap(2 * x), a - 1, b);
      assert a - 1 + b == a + b - 1;
    }
  }

  lemma TopBitOfTwo(q: nat)
    requires 1 <= q <= 3
    ensures And(q, Not(q / 2)) == if q == 1 then 1 else 2
  {
    assert And(1, 0xFFFF_FFFF) == 1;
    assert And(2, 0xFFFF_FFFE) == 2;
    assert And(3, 0xFFFF_FFFE) == 2;
  }

  lemma LogOfNormalized(x: nat)
    requires 0x4000 <= x < 0x10000
    ensures FloorLog2(x) == if x < 0x8000 then 14 else 15
  {
    assert Pow2(14) == 0x4000;
    if x < 0x8000 {
      FloorLog2Unique(x, 14);
    } else {
      FloorLog2Unique(x, 15);
    }
  }

  lemma HighestOfTwoBits(x: nat)
    requires 0x4000 <= x < 0x10000
    ensures 13 + And(x / 0x4000, Not(x / 0x4000 / 2)) == FloorLog2(x)
  {
    TopBitOfTwo(x / 0x4000);
    LogOfNormalized(x);
  }

  /** The bsrl instruction; the branch-free search gives -1 for 0. */
  function HighestBit(x: nat): int { if x == 0 then -1 else FloorLog2(x) }

  /** largebin_index: four bins per power of two, the last bin takes the rest. */
  function LargebinIndex(sz: nat): int {
    if Shr(sz, 8) >= 0x10000 then NBINS - 1 else LargebinAt(sz, HighestBit(Shr(sz, 8)))
  }

  function LargebinAt(sz: nat, m: int): int {
    if m < 0 then NBINS - 1 else NSMALLBINS + 4 * m + And(Shr(sz, m + 6), 3)
  }

  function BinIndex(sz: nat): int {
    if InSmallbinRange(sz) then SmallbinIndex(sz) else LargebinIndex(sz)
  }

  lemma {:induction false} FloorLog2Shr(x: nat, n: nat)
    requires x > 0 && n <= FloorLog2(x)
    ensures Shr(x, n) > 0 && FloorLog2(Shr(x, n)) == FloorLog2(x) - n
    decreases n
  {
    if n > 0 {
      FloorLog2Shr(x / 2, n - 1);
    }
  }

  lemma {:induction false} ShrMonotone(x: nat, y: nat, n: nat)
    requires x <= y
    ensures Shr(x, n) <= Shr(y, n)
    decreases n
  {
    if n > 0 {
      ShrMonotone(x / 2, y / 2, n - 1);
    }
  }

  lemma LogAtLeast(x: nat)
    requires 256 <= x
    ensures FloorLog2(x) >= 8
  {
    assert FloorLog2(256) == 8;
    FloorLog2Monotone(256, x);
  }

  /** For a size with leading bit m+8, the two bits after it pick one of four
      equal slices of the sizes with that leading bit. */
  lemma LargebinSlice(sz: nat)
    requires MIN_LARGE_SIZE <= sz && Shr(sz, 8) < 0x10000
    ensures 8 <= FloorLog2(sz) <= 23
    ensures 4 <= Shr(sz, FloorLog2(sz) - 2) < 8
    ensures LargebinIndex(sz) == 4 * FloorLog2(sz) + Shr(sz, FloorLog2(sz) - 2) - 4
  {
    LogRange(sz);
    LargebinAtSlice(sz, FloorLog2(sz) - 8);
  }

  lemma LogRange(sz: nat)
    requires MIN_LARGE_SIZE <= sz && Shr(sz, 8) < 0x10000
    ensures 8 <= FloorLog2(sz) <= 23 && Shr(sz, 8) > 0 && FloorLog2(Shr(sz, 8)) == FloorLog2(sz) - 8
  {
    LogAtLeast(sz);
    FloorLog2Shr(sz, 8);
    LogBelow(Shr(sz, 8), 0x10000);
  }

  /** With and without bsrl a large size gets the same bin. */
  lemma LargebinEitherWay(sz: nat, x: nat)
    requires MIN_LARGE_SIZE <= sz && x == Shr(sz, 8) < 0x10000
    ensures LargebinIndex(sz) == LargebinAt(sz, HighestBitBranchFree(x))
  {
    LogRange(sz);
    HighestBitBranchFreeIsFloorLog2(x);
  }

  lemma LargebinAtSlice(sz: nat, m: nat)
    requires sz > 0 && FloorLog2(sz) == m + 8
    ensures 4 <= Shr(sz, m + 6) < 8
    ensures LargebinAt(sz, m) == 4 * m + 28 + Shr(sz, m + 6)
  {
    FloorLog2Shr(sz, m + 6);
    FourToSeven(Shr(sz, m + 6));
  }

  lemma FourToSeven(y: nat)
    requires y > 0 && FloorLog2(y) == 2
    ensures 4 <= y < 8 && And(y, 3) == y - 4
  {
    assert FloorLog2(3) == 1 && FloorLog2(8) == 3;
    assert And(4, 3) == 0 && And(5, 3) == 1 && And(6, 3) == 2 && And(7, 3) == 3;
    FloorLog2Monotone(if y < 4 then y else 3, 3);
    FloorLog2Monotone(8, if y < 8 then 8 else y);
  }

  /** Large sizes use bins 32..95. */
  lemma LargebinRange(sz: nat)
    requires MIN_LARGE_SIZE <= sz
    ensures NSMALLBINS <= LargebinIndex(sz) <= NBINS - 1
  {
    if Shr(sz, 8) < 0x10000 {
      LargebinSlice(sz);
    }
  }

  lemma LargebinMonotone(s: nat, t: nat)
    requires MIN_LARGE_SIZE <= s <= t
    ensures LargebinIndex(s) <= LargebinIndex(t)
  {
    ShrMonotone(s, t, 8);
    if Shr(t, 8) >= 0x10000 {
      LargebinRange(s);
    } else {
      FloorLog2Monotone(s, t);
      LargebinSlice(s);
      LargebinSlice(t);
      SliceMonotone(s, t);
    }
  }

  lemma SliceMonotone(s: nat, t: nat)
    requires 0 < s <= t && 8 <= FloorLog2(s) <= FloorLog2(t)
    requires 4 <= Shr(s, FloorLog2(s) - 2) < 8 && 4 <= Shr(t, FloorLog2(t) - 2) < 8
    ensures 4 * FloorLog2(s) + Shr(s, FloorLog2(s) - 2) <= 4 * FloorLog2(t) + Shr(t, FloorLog2(t) - 2)
  {
    if FloorLog2(s) == FloorLog2(t) {
      ShrMonotone(s, t, FloorLog2(s) - 2);
    }
  }

  /** Larger chunks never land in lower bins, so every chunk in a bin above
      the request's own bin fits, and none below it does. */
  lemma BinIndexMonotone(s: nat, t: nat)
    requires s <= t
    ensures BinIndex(s) <= BinIndex(t)
  {
    if InSmallbinRange(s) {
      if !InSmallbinRange(t) {
        LargebinRange(t);
      }
    } else {
      LargebinMonotone(s, t);
    }
  }

  lemma BinIndexRange(sz: nat)
    requires MINSIZE <= sz
    ensures 2 <= BinIndex(sz) < NBINS
    ensures InSmallbinRange(sz) <==> BinIndex(sz) < NSMALLBINS
  {
    if !InSmallbinRange(sz) {
      LargebinRange(sz);
    }
  }

  /** (x + pagemask) & ~pagemask on 32-bit words. */
  function RoundPage(x: int): int { Wrap(x + PAGE - 1) - Wrap(x + PAGE - 1) % PAGE }

  /** Rounding to pages either keeps at least x or visibly wraps below it. */
  lemma RoundPageBounds(x: nat)
    requires x < WORD
    ensures RoundPage(x) % PAGE == 0 && 0 <= RoundPage(x) < WORD
    ensures x + PAGE - 1 < WORD ==> x <= RoundPage(x)
    ensures x + PAGE - 1 >= WORD ==> RoundPage(x) == 0
  {
    var w := Wrap(x + PAGE - 1);
    assert w == PAGE * (w / PAGE) + w % PAGE;
  }
}
