/** The bitmap allocator of libbitarray/bit-array.h: bits in an array of bytes,
    searched a byte at a time from any start, wrapping around. */
module BitArray {
  // ----- one byte -----

  /** 1 << k */
  function Mask(k: nat): bv8
    requires k < 8
  {
    match k
    case 0 => 0x01
    case 1 => 0x02
    case 2 => 0x04
    case 3 => 0x08
    case 4 => 0x10
    case 5 => 0x20
    case 6 => 0x40
    case _ => 0x80
  }

  predicate Test(b: bv8, k: nat)
    requires k < 8
  {
    b & Mask(k) != 0
  }

  lemma SetBit(b: bv8, k: nat, j: nat)
    requires k < 8 && j < 8
    ensures Test(b | Mask(k), j) <==> j == k || Test(b, j)
  {
  }

  lemma ClearBit(b: bv8, k: nat, j: nat)
    requires k < 8 && j < 8
    ensures Test(b & !Mask(k), j) <==> j != k && Test(b, j)
  {
  }

  /** b | ((1 << k) - 1) hides the bits below k, b | ~((1 << k) - 1) the others. */
  lemma HideBits(b: bv8, k: nat, j: nat)
    requires k < 8 && j < 8
    ensures Test(b | (Mask(k) - 1), j) <==> j < k || Test(b, j)
    ensures Test(b | !(Mask(k) - 1), j) <==> j >= k || Test(b, j)
  {
  }

  /** The table of first_free_bit, indexed by four bits. */
  const FIRST_FREE: seq<int> := [0, 1, 0, 2, 0, 1, 0, 3, 0, 1, 0, 2, 0, 1, 0, -1]

  function CheckByte(b: bv8): int {
    var low := FIRST_FREE[(b & 0xf) as int];
    if low != -1 then low
    else
      var high := FIRST_FREE[(b >> 4) as int];
      if high != -1 then 4 + high else -1
  }

  /** The two table look-ups find the lowest clear bit, or none. */
  lemma CheckByteFinds(b: bv8)
    ensures var r := CheckByte(b);
      if r == -1 then forall j: nat :: j < 8 ==> Test(b, j)
      else 0 <= r < 8 && !Test(b, r) && forall j: nat :: j < r ==> Test(b, j)
  {
  }

  // ----- the whole array -----

  predicate Bit(s: seq<bv8>, x: int)
    requires 0 <= x < 8 * |s|
  {
    Test(s[x / 8], x % 8)
  }

  /** How far bit x lies after start in cyclic order. */
  function Distance(n: int, start: int, x: int): int {
    if x >= start then x - start else x - start + n
  }

  /** Which byte of the search, counted from the first, looks at bit x; the bits
      before start in the first byte come last. */
  function Turn(size: int, start: int, x: int): int {
    if x >= start then x / 8 - start / 8 else x / 8 - start / 8 + size
  }

  lemma TurnOrder(size: int, start: int, x: int)
    requires 0 <= start < 8 * size && 0 <= x < 8 * size
    ensures 0 <= Turn(size, start, x) <= size
    ensures Distance(8 * size, start, x) == 8 * Turn(size, start, x) + x % 8 - start % 8
    ensures Turn(size, start, x) == 0 ==> x / 8 == start / 8 && x % 8 >= start % 8
    ensures Turn(size, start, x) == size ==> x / 8 == start / 8 && x % 8 < start % 8
  {
    var i, k, y, j := start / 8, start % 8, x / 8, x % 8;
    assert start == 8 * i + k && x == 8 * y + j;
  }

  /** The byte looked at in turn c. */
  function ByteAt(size: int, start: int, c: int): int {
    if start / 8 + c < size then start / 8 + c else start / 8 + c - size
  }

  lemma TurnByte(size: int, start: int, x: int)
    requires 0 <= start < 8 * size && 0 <= x < 8 * size
    ensures x / 8 == ByteAt(size, start, Turn(size, start, x))
  {
    TurnOrder(size, start, x);
  }

  ghost predicate Taken(s: seq<bv8>, start: int, c: int, x: int) {
    0 <= x < 8 * |s| && Turn(|s|, start, x) < c ==> Bit(s, x)
  }

  /** Every bit of the first c turns is set. */
  ghost predicate AllTaken(s: seq<bv8>, start: int, c: int) {
    forall x {:trigger Taken(s, start, c, x)} :: Taken(s, start, c, x)
  }

  /** What turn c examines: the bits that do not belong to it are hidden. */
  ghost predicate Shows(s: seq<bv8>, start: int, c: int, b: bv8) {
    && 0 <= c <= |s| && 0 <= start < 8 * |s|
    && forall j: nat :: j < 8 ==>
         (Test(b, j) <==>
           Test(s[ByteAt(|s|, start, c)], j) || (c == 0 && j < start % 8) || (c == |s| && j >= start % 8))
  }

  lemma NothingFree(s: seq<bv8>, start: int, c: int, b: bv8)
    requires Shows(s, start, c, b) && AllTaken(s, start, c) && CheckByte(b) == -1
    ensures AllTaken(s, start, c + 1)
  {
    CheckByteFinds(b);
    var c' := c + 1;
    forall x ensures Taken(s, start, c', x) {
      assert Taken(s, start, c, x);
      if 0 <= x < 8 * |s| && Turn(|s|, start, x) == c {
        TurnOrder(|s|, start, x);
        TurnByte(|s|, start, x);
        assert Test(b, x % 8);
      }
    }
  }

  /** x comes before r in cyclic order from start. */
  predicate Before(n: int, start: int, x: int, r: int) { Distance(n, start, x) < Distance(n, start, r) }

  ghost predicate FirstFree(s: seq<bv8>, start: int, r: int) {
    && 0 <= r < 8 * |s| && !Bit(s, r)
    && forall x :: 0 <= x < 8 * |s| && Before(8 * |s|, start, x, r) ==> Bit(s, x)
  }

  lemma FoundFirst(s: seq<bv8>, start: int, c: int, b: bv8)
    requires Shows(s, start, c, b) && AllTaken(s, start, c) && CheckByte(b) != -1
    ensures 0 <= CheckByte(b) < 8 && FirstFree(s, start, 8 * ByteAt(|s|, start, c) + CheckByte(b))
  {
    CheckByteFinds(b);
    var bit := CheckByte(b);
    var r := 8 * ByteAt(|s|, start, c) + bit;
    assert !Test(b, bit);
    FoundTurn(|s|, start, c, bit);
    forall x | 0 <= x < 8 * |s| && Before(8 * |s|, start, x, r) ensures Bit(s, x) {
      assert Taken(s, start, c, x);
      TurnOrder(|s|, start, x);
      TurnByte(|s|, start, x);
      if Turn(|s|, start, x) == c { assert Test(b, x % 8); }
    }
  }

  /** The bit found in turn c belongs to turn c. */
  lemma FoundTurn(size: int, start: int, c: int, bit: int)
    requires 0 <= start < 8 * size && 0 <= c <= size && 0 <= bit < 8
    requires c == 0 ==> bit >= start % 8
    requires c == size ==> bit < start % 8
    ensures var r := 8 * ByteAt(size, start, c) + bit;
      && 0 <= r < 8 * size && r / 8 == ByteAt(size, start, c) && r % 8 == bit && Turn(size, start, r) == c
      && Distance(8 * size, start, r) == 8 * c + bit - start % 8
  {
    var i, k, y := start / 8, start % 8, ByteAt(size, start, c);
    var r := 8 * y + bit;
    assert start == 8 * i + k && r / 8 == y && r % 8 == bit;
    TurnOrder(size, start, r);
  }

  /** Only bit r changes, to v. */
  ghost predicate OnlyBit(s: seq<bv8>, s': seq<bv8>, r: int, v: bool) {
    |s'| == |s| && forall x :: 0 <= x < 8 * |s| ==> (Bit(s', x) <==> if x == r then v else Bit(s, x))
  }

  lemma ChangeOnly(s: seq<bv8>, r: int, b: bv8, v: bool)
    requires 0 <= r < 8 * |s|
    requires forall j: nat :: j < 8 ==> (Test(b, j) <==> if j == r % 8 then v else Test(s[r / 8], j))
    ensures OnlyBit(s, s[r / 8 := b], r, v)
  {
    forall x | 0 <= x < 8 * |s| ensures Bit(s[r / 8 := b], x) <==> if x == r then v else Bit(s, x) {
      if x / 8 == r / 8 { assert x == 8 * (x / 8) + x % 8 && r == 8 * (r / 8) + r % 8; }
    }
  }

  lemma SetOnly(s: seq<bv8>, r: int)
    requires 0 <= r < 8 * |s|
    ensures OnlyBit(s, s[r / 8 := s[r / 8] | Mask(r % 8)], r, true)
    ensures OnlyBit(s, s[r / 8 := s[r / 8] & !Mask(r % 8)], r, false)
  {
    var b, k := s[r / 8], r % 8;
    forall j: nat | j < 8 ensures Test(b | Mask(k), j) <==> if j == k then true else Test(b, j) { SetBit(b, k, j); }
    ChangeOnly(s, r, b | Mask(k), true);
    forall j: nat | j < 8 ensures Test(b & !Mask(k), j) <==> if j == k then false else Test(b, j) { ClearBit(b, k, j); }
    ChangeOnly(s, r, b & !Mask(k), false);
  }

  method BitTest(a: array<bv8>, bit: int) returns (r: bool)
    requires 0 <= bit < 8 * a.Length
    ensures r <==> Bit(a[..], bit)
  {
    r := a[bit / 8] & Mask(bit % 8) != 0;
  }

  method BitSet(a: array<bv8>, bit: int) returns (r: bool)
    requires 0 <= bit < 8 * a.Length
    modifies a
    ensures OnlyBit(old(a[..]), a[..], bit, true) && (r <==> !Bit(old(a[..]), bit))
  {
    SetOnly(a[..], bit);
    if a[bit / 8] & Mask(bit % 8) != 0 {
      return false;
    }
    a[bit / 8] := a[bit / 8] | Mask(bit % 8);
    r := true;
  }

  method BitSetTo(a: array<bv8>, bit: int, value: int)
    requires 0 <= bit < 8 * a.Length
    modifies a
    ensures OnlyBit(old(a[..]), a[..], bit, value != 0)
  {
    SetOnly(a[..], bit);
    if value != 0 {
      a[bit / 8] := a[bit / 8] | Mask(bit % 8);
    } else {
      a[bit / 8] := a[bit / 8] & !Mask(bit % 8);
    }
  }

  /** bit_dealloc; the bit must be set. */
  method BitDealloc(a: array<bv8>, bit: int)
    requires 0 <= bit < 8 * a.Length && Bit(a[..], bit)
    modifies a
    ensures OnlyBit(old(a[..]), a[..], bit, false)
  {
    SetOnly(a[..], bit);
    a[bit / 8] := a[bit / 8] & !Mask(bit % 8);
  }

  /** Take the free bit that turn c shows. */
  method TakeBit(a: array<bv8>, start: int, byte: int, ghost c: int, b: bv8, bit: int) returns (r: int)
    requires 0 <= start < 8 * a.Length && Shows(a[..], start, c, b) && AllTaken(a[..], start, c) &&
      byte == ByteAt(a.Length, start, c)
    requires bit == CheckByte(b) && bit != -1
    modifies a
    ensures FirstFree(old(a[..]), start, r) && OnlyBit(old(a[..]), a[..], r, true)
  {
    FoundFirst(a[..], start, c, b);
    r := byte * 8 + bit;
    assert r / 8 == byte && r % 8 == bit;
    SetOnly(a[..], r);
    a[byte] := a[byte] | Mask(bit);
  }

  /** bit_alloc: take the first zero bit in cyclic order, or report -1. */
  method BitAlloc(a: array<bv8>, start: int) returns (r: int)
    requires 0 <= start < 8 * a.Length
    modifies a
    ensures r != -1 ==> FirstFree(old(a[..]), start, r) && OnlyBit(old(a[..]), a[..], r, true)
    ensures r == -1 ==> a[..] == old(a[..]) && forall x :: 0 <= x < 8 * a.Length ==> Bit(a[..], x)
  {
    ghost var s := a[..];
    var startByte := start / 8;
    var byte := startByte;
    var b := FirstByte(a, start);
    ghost var c := 0;
    var again := true;
    while again
      invariant a[..] == s && 0 <= c <= a.Length && AllTaken(s, start, c)
      invariant again ==> c < a.Length && byte == ByteAt(a.Length, start, c) && Shows(s, start, c, b)
      invariant !again ==> c == a.Length && byte == startByte
      decreases a.Length - c, again
    {
      var bit := CheckByte(b);
      if bit != -1 {
        r := TakeBit(a, start, byte, c, b, bit);
        return;
      }
      NothingFree(s, start, c, b);
      byte := byte + 1;
      if byte == a.Length {
        byte := 0;
      }
      c := c + 1;
      again := byte != startByte;
      if again {
        b := a[byte];
      }
    }
    r := TryLastByte(a, start);
  }

  /** The first byte, with the bits below the start shown as set. */
  method FirstByte(a: array<bv8>, start: int) returns (b: bv8)
    requires 0 <= start < 8 * a.Length
    ensures Shows(a[..], start, 0, b) && AllTaken(a[..], start, 0)
  {
    b := a[start / 8];
    if start % 8 != 0 {
      b := a[start / 8] | (Mask(start % 8) - 1);
    }
    FirstShows(a[..], start, b);
  }

  /** The bits of the first byte that were left out at first. */
  method TryLastByte(a: array<bv8>, start: int) returns (r: int)
    requires 0 <= start < 8 * a.Length && AllTaken(a[..], start, a.Length)
    modifies a
    ensures r != -1 ==> FirstFree(old(a[..]), start, r) && OnlyBit(old(a[..]), a[..], r, true)
    ensures r == -1 ==> a[..] == old(a[..]) && forall x :: 0 <= x < 8 * a.Length ==> Bit(a[..], x)
  {
    ghost var s := a[..];
    var byte, k := start / 8, start % 8;
    if k != 0 {
      var b := a[byte] | !(Mask(k) - 1);
      LastShows(s, start, b);
      var bit := CheckByte(b);
      if bit != -1 {
        r := TakeBit(a, start, byte, a.Length, b, bit);
        return;
      }
      NothingFree(s, start, a.Length, b);
    }
    NoneLeft(s, start, a.Length);
    r := -1;
  }

  lemma FirstShows(s: seq<bv8>, start: int, b: bv8)
    requires 0 <= start < 8 * |s| && b == if start % 8 != 0 then s[start / 8] | (Mask(start % 8) - 1) else s[start / 8]
    ensures Shows(s, start, 0, b) && AllTaken(s, start, 0)
  {
    forall j: nat | j < 8 ensures Test(b, j) <==> Test(s[start / 8], j) || j < start % 8 {
      HideBits(s[start / 8], start % 8, j);
    }
    forall x ensures Taken(s, start, 0, x) { if 0 <= x < 8 * |s| { TurnOrder(|s|, start, x); } }
  }

  lemma LastShows(s: seq<bv8>, start: int, b: bv8)
    requires 0 <= start < 8 * |s| && b == s[start / 8] | !(Mask(start % 8) - 1)
    ensures Shows(s, start, |s|, b)
  {
    forall j: nat | j < 8 ensures Test(b, j) <==> Test(s[start / 8], j) || j >= start % 8 {
      HideBits(s[start / 8], start % 8, j);
    }
  }

  lemma NoneLeft(s: seq<bv8>, start: int, c: int)
    requires 0 <= start < 8 * |s| && AllTaken(s, start, if start % 8 != 0 then |s| + 1 else |s|) && c == |s|
    ensures forall x :: 0 <= x < 8 * |s| ==> Bit(s, x)
  {
    var lim := if start % 8 != 0 then |s| + 1 else |s|;
    forall x | 0 <= x < 8 * |s| ensures Bit(s, x) {
      assert Taken(s, start, lim, x);
      TurnOrder(|s|, start, x);
    }
  }

  /** bit_dealloc undoes bit_alloc. */
  lemma AllocThenDealloc(s: seq<bv8>, s': seq<bv8>, s'': seq<bv8>, r: int, start: int)
    requires FirstFree(s, start, r) && OnlyBit(s, s', r, true) && OnlyBit(s', s'', r, false)
    ensures s'' == s
  {
    forall i | 0 <= i < |s| ensures s''[i] == s[i] {
      forall j: nat | j < 8 ensures Test(s''[i], j) <==> Test(s[i], j) {
        var x := 8 * i + j;
        assert x / 8 == i && x % 8 == j;
        assert Bit(s'', x) <==> Bit(s, x);
      }
      SameBits(s''[i], s[i]);
    }
  }

  lemma SameBits(b: bv8, b': bv8)
    requires forall j: nat :: j < 8 ==> (Test(b, j) <==> Test(b', j))
    ensures b == b'
  {
    assert Test(b, 0) <==> Test(b', 0);
    assert Test(b, 1) <==> Test(b', 1);
    assert Test(b, 2) <==> Test(b', 2);
    assert Test(b, 3) <==> Test(b', 3);
    assert Test(b, 4) <==> Test(b', 4);
    assert Test(b, 5) <==> Test(b', 5);
    assert Test(b, 6) <==> Test(b', 6);
    assert Test(b, 7) <==> Test(b', 7);
  }
}
