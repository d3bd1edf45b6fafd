/** The arithmetic of memalign: powers of two and aligned spots inside a chunk. */
module Alignment {
  import opened Word32
  import opened MallocSizes

  predicate PowerOfTwo(a: nat) {
    a == 1 || (a > 1 && a % 2 == 0 && PowerOfTwo(a / 2))
  }

  /** The bit trick: x & (x - 1) is zero exactly for powers of two. */
  lemma {:induction false} ClearLowestBit(x: nat)
    requires x > 0
    ensures And(x, x - 1) == 0 <==> PowerOfTwo(x)
  {
    if x % 2 == 1 {
      if x > 1 { AndSelf(x / 2); }
    } else {
      ClearLowestBit(x / 2);
      assert (x - 1) / 2 == x / 2 - 1;
    }
  }

  lemma {:induction false} AndSelf(x: nat)
    ensures And(x, x) == x
  {
    if x > 0 { AndSelf(x / 2); }
  }

  lemma {:induction false} PowersDoubleApart(a: nat, b: nat)
    requires PowerOfTwo(a) && PowerOfTwo(b) && b < a
    ensures 2 * b <= a
  {
    if b > 1 { PowersDoubleApart(a / 2, b / 2); }
  }

  /** Divisibility by a power of two, bit by bit. */
  predicate Multiple(z: nat, a: nat) {
    a <= 1 || (z % 2 == 0 && Multiple(z / 2, a / 2))
  }

  lemma {:induction false} MultipleIsMod(z: nat, a: nat)
    requires PowerOfTwo(a)
    ensures Multiple(z, a) <==> z % a == 0
    decreases a
  {
    if a > 1 {
      MultipleIsMod(z / 2, a / 2);
      ModHalves(z, a / 2);
    }
  }

  lemma {:induction false} MultipleWeaken(z: nat, a: nat, d: nat)
    requires PowerOfTwo(a) && PowerOfTwo(d) && d <= a && Multiple(z, a)
    ensures Multiple(z, d)
    decreases a
  {
    if d > 1 { MultipleWeaken(z / 2, a / 2, d / 2); }
  }

  lemma {:induction false} MultiplePlus(z: nat, a: nat)
    requires PowerOfTwo(a)
    ensures Multiple(z + a, a) <==> Multiple(z, a)
    decreases a
  {
    if a > 1 {
      MultiplePlus(z / 2, a / 2);
      assert (z + a) / 2 == z / 2 + a / 2;
    }
  }

  lemma {:induction false} PowerIsPower(n: nat)
    ensures PowerOfTwo(Pow2(n)) && 1 <= Pow2(n)
  {
    if n > 0 {
      PowerIsPower(n - 1);
      TwiceHalf(Pow2(n - 1));
    }
  }

  lemma TwiceHalf(x: nat)
    ensures (2 * x) % 2 == 0 && (2 * x) / 2 == x
  {
  }

  lemma {:induction false} PowAdd(i: nat, j: nat)
    ensures Pow2(i + j) == Pow2(i) * Pow2(j)
  {
    if i > 0 {
      PowAdd(i - 1, j);
      assert Pow2(i + j) == 2 * (Pow2(i - 1) * Pow2(j));
    }
  }

  /** 2^31 is a power of two; out-parameters keep the solver from unrolling it. */
  lemma LargestPower() returns (t: nat)
    ensures t == 0x8000_0000 && PowerOfTwo(t)
  {
    var n, p := WordBits(32);
    t := Pow2(n - 1);
    PowerIsPower(n - 1);
  }

  lemma WordBits(bits: nat) returns (n: nat, p: nat)
    requires bits == 27 || bits == 32
    ensures n == bits && p == Pow2(n) && (bits == 27 ==> p == 0x800_0000) && (bits == 32 ==> p == WORD)
  {
    n := bits;
    p := Pow2(n);
    assert Pow2(5) == 32 && Pow2(9) == 512;
    PowAdd(9, 9);
    PowAdd(18, 9);
    PowAdd(27, 5);
  }

  lemma SmallPower(k: nat) returns (t: nat)
    requires k == 8 || k == 16 || k == 4096
    ensures t == k && PowerOfTwo(t)
  {
    t := k;
    assert PowerOfTwo(8) && PowerOfTwo(16) && PowerOfTwo(4096);
  }

  /** The least power of two that is at least MINSIZE and n. */
  function Rounded(n: nat): (a: nat)
    ensures PowerOfTwo(a) && MINSIZE <= a && n <= a && (a == MINSIZE || a / 2 < n)
  {
    if n <= MINSIZE then
      assert PowerOfTwo(16);
      MINSIZE
    else
      2 * Rounded((n + 1) / 2)
  }

  lemma RoundedIsLeast(n: nat, b: nat)
    requires PowerOfTwo(b) && MINSIZE <= b && n <= b
    ensures Rounded(n) <= b
    ensures b == MINSIZE || b / 2 < n ==> b == Rounded(n)
  {
    var a := Rounded(n);
    if b < a { PowersDoubleApart(a, b); }
    if a < b { PowersDoubleApart(b, a); }
  }

  /** The doubling loop of memalign on 32-bit words. */
  method DoubleUp(alignment: nat) returns (a: nat)
    requires alignment <= 0x8000_0000
    ensures PowerOfTwo(a) && 16 <= a <= 0x8000_0000 && alignment <= a && (a == 16 || a / 2 < alignment)
  {
    a := 16;
    ghost var s := SmallPower(16);
    ghost var t := LargestPower();
    while a < alignment
      invariant PowerOfTwo(a) && 16 <= a <= t && (a == 16 || a / 2 < alignment)
      decreases t - a
    {
      PowersDoubleApart(t, a);
      TwiceHalf(a);
      WrapSmall(2 * a);
      a := Wrap(2 * a);
    }
  }

  /** The alignment memalign works with. */
  method RoundAlignment(alignment: nat) returns (a: nat)
    requires alignment <= 0x8000_0000
    ensures a == Rounded(alignment) && a <= 0x8000_0000
  {
    a := if alignment < MINSIZE then MINSIZE else alignment;
    ClearLowestBit(a);
    if And(a, a - 1) != 0 {
      a := DoubleUp(alignment);
    }
    RoundedIsLeast(alignment, a);
  }

  lemma {:induction false} DoublingStays(x: nat, k: nat)
    requires x == 0 || (PowerOfTwo(x) && x <= 0x8000_0000)
    ensures Shl(x, k) <= 0x8000_0000
    decreases k
  {
    if k > 0 {
      var t := LargestPower();
      if 0 < x < t { PowersDoubleApart(t, x); }
      DoublingStays(Wrap(2 * x), k - 1);
    }
  }

  lemma {:induction false} PowMonotone(i: nat, j: nat)
    requires i <= j
    ensures Pow2(i) <= Pow2(j)
    decreases j
  {
    if i < j { PowMonotone(i, j - 1); }
  }

  lemma {:induction false} DoublingReaches(j: nat, k: nat)
    requires Pow2(j + k) < WORD
    ensures Shl(Pow2(j), k) == Pow2(j + k)
    decreases k
  {
    if k > 0 {
      PowMonotone(j + 1, j + k);
      DoublingReaches(j + 1, k - 1);
    }
  }

  /** The doubling loop ends exactly for alignments up to 2^31: beyond that the
      32-bit variable is shifted out to zero and never gets there. */
  lemma RoundingEnds(alignment: nat)
    ensures (exists k: nat :: Shl(16, k) >= alignment) <==> alignment <= 0x8000_0000
  {
    forall k: nat ensures Shl(16, k) <= 0x8000_0000 {
      var s := SmallPower(16);
      DoublingStays(s, k);
    }
    var n, p := WordBits(27);
    assert Pow2(4) == 16;
    PowAdd(4, n);
    DoublingReaches(4, n);
  }

  lemma AndStep(x: nat, c: nat)
    ensures And(x, 2 * c) == 2 * And(x / 2, c)
    ensures And(x, 2 * c + 1) == x % 2 + 2 * And(x / 2, c)
  {
    assert (2 * c) / 2 == c && (2 * c + 1) / 2 == c;
  }

  lemma {:induction false} AllOnes(x: nat, n: nat)
    requires x < Pow2(n)
    ensures And(x, Pow2(n) - 1) == x
    decreases n
  {
    if n > 0 {
      AllOnes(x / 2, n - 1);
      AndStep(x, Pow2(n - 1) - 1);
    }
  }

  /** Clear the low bits below a. */
  function RoundDown(x: nat, a: nat): nat {
    if a <= 1 then x else 2 * RoundDown(x / 2, a / 2)
  }

  /** x & -a clears the bits below a. */
  lemma {:induction false} MaskRoundsDown(x: nat, a: nat, n: nat)
    requires PowerOfTwo(a) && a <= Pow2(n) && x < Pow2(n)
    ensures And(x, Pow2(n) - a) == RoundDown(x, a)
    decreases n
  {
    if a == 1 {
      AllOnes(x, n);
    } else {
      MaskRoundsDown(x / 2, a / 2, n - 1);
      AndStep(x, Pow2(n - 1) - a / 2);
    }
  }

  lemma {:induction false} RoundDownIsMultiple(x: nat, a: nat)
    requires PowerOfTwo(a)
    ensures RoundDown(x, a) <= x < RoundDown(x, a) + a && Multiple(RoundDown(x, a), a)
    decreases a
  {
    if a > 1 { RoundDownIsMultiple(x / 2, a / 2); }
  }

  lemma ModHalves(x: nat, b: nat)
    requires b > 0
    ensures x % (2 * b) == 2 * (x / 2 % b) + x % 2
  {
    var y := x / 2;
    assert y == (y / b) * b + y % b;
    assert x == (y / b) * (2 * b) + (2 * (y % b) + x % 2) by { assert (y / b) * (2 * b) == 2 * ((y / b) * b); }
    DivUnique(x, 2 * b, y / b, 2 * (y % b) + x % 2);
  }

  /** The chunk address in [mem - 8, ...) whose memory is aligned and which
      leaves room for a leading chunk. */
  function AlignedSpot(mem: nat, a: nat): int
    requires 8 <= mem && 0 < a <= WORD
  {
    SpotFrom(And(Wrap(mem + a - 1), WORD - a) - 8, mem, a)
  }

  function SpotFrom(brk: int, mem: nat, a: nat): int {
    if brk - (mem - 8) < MINSIZE then brk + a else brk
  }

  lemma AlignedSpotFits(mem: nat, a: nat)
    requires 8 <= mem && mem % 8 == 0 && PowerOfTwo(a) && MINSIZE <= a && mem + a - 1 < WORD
    ensures var b := AlignedSpot(mem, a);
      0 <= b && MINSIZE <= b - (mem - 8) <= a + 8 && b % 8 == 0 && Multiple(b + 8, a)
  {
    var z := RoundUp(mem, a);
    SpotFromFits(z, mem, a);
  }

  lemma SpotFromFits(z: nat, mem: nat, a: nat)
    requires 8 <= mem && mem % 8 == 0 && PowerOfTwo(a) && MINSIZE <= a && mem <= z < mem + a && Multiple(z, a)
    ensures var b := SpotFrom(z - 8, mem, a);
      0 <= b && MINSIZE <= b - (mem - 8) <= a + 8 && b % 8 == 0 && Multiple(b + 8, a)
  {
    MultiplePlus(z, a);
    MultipleOfEight(z, a);
    MultipleOfEight(z + a, a);
    EightSteps(mem, z, a);
    SpotBounds(z, mem, a);
  }

  lemma SpotBounds(z: nat, mem: nat, a: nat)
    requires 8 <= mem && MINSIZE <= a && mem <= z <= mem + a - 8 && (z < mem + MINSIZE ==> z == mem || z == mem + 8)
    ensures var b := SpotFrom(z - 8, mem, a);
      (b == z - 8 || b == z - 8 + a) && 0 <= b && MINSIZE <= b - (mem - 8) <= a + 8
  {
  }

  lemma EightSteps(mem: nat, z: nat, a: nat)
    requires mem % 8 == 0 && z % 8 == 0 && mem <= z < mem + a && (z + a) % 8 == 0
    ensures z <= mem + a - 8 && (z - 8) % 8 == 0 && (z - 8 + a) % 8 == 0
    ensures z < mem + MINSIZE ==> z == mem || z == mem + 8
  {
    var i, j, k := mem / 8, z / 8, (z + a) / 8;
    assert mem == 8 * i && z == 8 * j && z + a == 8 * k;
    Eights(z - 8, j - 1);
    Eights(z - 8 + a, k - 1);
  }

  lemma Eights(x: int, k: int)
    requires x == 8 * k
    ensures x % 8 == 0
  {
  }

  lemma WrapSmall(x: nat)
    requires x < WORD
    ensures Wrap(x) == x
  {
  }

  /** (mem + a - 1) & -a is the next multiple of a. */
  lemma RoundUp(mem: nat, a: nat) returns (z: nat)
    requires PowerOfTwo(a) && mem + a - 1 < WORD && a <= WORD
    ensures z == And(Wrap(mem + a - 1), WORD - a) && Multiple(z, a) && mem <= z < mem + a
  {
    var n, p := WordBits(32);
    var y: nat := mem + a - 1;
    WrapSmall(y);
    z := RoundDown(y, a);
    RoundDownIsMultiple(y, a);
    MaskRoundsDown(y, a, n);
  }

  lemma MultipleOfEight(z: nat, a: nat)
    requires PowerOfTwo(a) && MINSIZE <= a && Multiple(z, a)
    ensures z % 8 == 0
  {
    var eight := SmallPower(8);
    MultipleWeaken(z, a, eight);
    MultipleIsMod(z, eight);
  }

  /** A mapped chunk that starts a page keeps more than MAX_FAST bytes after the
      leader is cut off, whatever the alignment. */
  lemma MappedSpotKept(base: nat, len: nat, a: nat, b: nat)
    requires base % PAGE == 0 && len % PAGE == 0 && PowerOfTwo(a) && a + 8 + MINSIZE <= len
    requires b <= base + a + 8 && Multiple(b + 8, a)
    ensures b + MAX_FAST < base + len
  {
    if a < PAGE { BelowPage(a); } else { OnPage(b + 8, a); }
    MappedBound(base, len, a, b);
  }

  lemma BelowPage(a: nat)
    requires PowerOfTwo(a) && a < PAGE
    ensures 2 * a <= PAGE
  {
    var page := SmallPower(PAGE);
    PowersDoubleApart(page, a);
  }

  lemma OnPage(z: nat, a: nat)
    requires PowerOfTwo(a) && PAGE <= a && Multiple(z, a)
    ensures z % PAGE == 0
  {
    var page := SmallPower(PAGE);
    MultipleWeaken(z, a, page);
    MultipleIsMod(z, page);
  }

  lemma MappedBound(base: nat, len: nat, a: nat, b: nat)
    requires base % PAGE == 0 && len % PAGE == 0 && a + 8 + MINSIZE <= len && b <= base + a + 8
    requires if a < PAGE then 2 * a <= PAGE else (b + 8) % PAGE == 0
    ensures b + MAX_FAST < base + len
  {
    if a < PAGE {
      AtLeastPage(len);
    } else {
      PageGap(base, len, b);
    }
  }

  lemma AtLeastPage(len: nat)
    requires len % PAGE == 0 && 0 < len
    ensures PAGE <= len
  {
  }

  lemma PageGap(base: int, len: int, b: int)
    requires base % PAGE == 0 && len % PAGE == 0 && (b + 8) % PAGE == 0 && b + MINSIZE <= base + len
    ensures b + 8 + PAGE <= base + len
  {
    var i, j, k := base / PAGE, len / PAGE, (b + 8) / PAGE;
    assert base == i * 4096 && len == j * 4096 && b + 8 == k * 4096;
  }

  /** m % alignment */
  method IsAligned(mem: nat, a: nat) returns (yes: bool)
    requires PowerOfTwo(a)
    ensures yes <==> Multiple(mem, a)
  {
    MultipleIsMod(mem, a);
    yes := mem % a == 0;
  }

  /** The aligned spot; a mapping of len bytes that starts at mem - 8 keeps more
      than MAX_FAST bytes beyond it. */
  method ChooseSpot(mem: nat, a: nat, ghost len: nat) returns (b: nat)
    requires 8 <= mem && mem % 8 == 0 && PowerOfTwo(a) && MINSIZE <= a && mem + a - 1 < WORD
    ensures MINSIZE <= b - (mem - 8) <= a + 8 && b % 8 == 0 && Multiple(b + 8, a)
    ensures (mem - 8) % PAGE == 0 && len % PAGE == 0 && a + 8 + MINSIZE <= len ==> b + MAX_FAST < mem - 8 + len
  {
    AlignedSpotFits(mem, a);
    b := AlignedSpot(mem, a);
    if (mem - 8) % PAGE == 0 && len % PAGE == 0 && a + 8 + MINSIZE <= len {
      MappedSpotKept(mem - 8, len, a, b);
    }
  }

  /** The same for the chunk at p. */
  method ChooseSpotAt(p: nat, a: nat, ghost len: nat) returns (b: nat)
    requires p % 8 == 0 && PowerOfTwo(a) && MINSIZE <= a && p + 8 + a <= WORD
    ensures p + MINSIZE <= b <= p + a + 8 && b % 8 == 0 && (b - p) % 8 == 0 && Multiple(b + 8, a)
    ensures p % PAGE == 0 && len % PAGE == 0 && a + 8 + MINSIZE <= len ==> b + MAX_FAST < p + len
  {
    EightApart(p + 8, p);
    b := ChooseSpot(p + 8, a, len);
    EightApart(b, p);
  }

  lemma EightApart(x: int, y: int)
    requires y % 8 == 0 && (x % 8 == 0 || x == y + 8)
    ensures x % 8 == 0 && (x - y) % 8 == 0
  {
    var i, j := x / 8, y / 8;
    assert y == 8 * j;
    if x == y + 8 {
      Eights(x, j + 1);
    } else {
      assert x == 8 * i;
      Eights(x - y, i - j);
    }
  }

  /** memalign pads its request by the alignment, on 32-bit words: the chunk it
      then asks for has room for nb bytes exactly if the sum does not wrap. */
  lemma PaddingHolds(nb: nat, a: nat)
    requires nb < WORD && MINSIZE <= a <= 0x8000_0000
    ensures Request2Size(Wrap(nb + a + MINSIZE)) >= nb <==> nb + a + MINSIZE < WORD
  {
    if nb + a + MINSIZE < WORD {
      WrapSmall(nb + a + MINSIZE);
    } else {
      DivUnique(nb + a + MINSIZE, WORD, 1, nb + a + MINSIZE - WORD);
    }
  }
}
