/** MD5 as section 3 of RFC 1321 defines it: one message, one digest. */
module Md5Spec {
  import opened Word32
  import opened Md5Schedule

  type Byte = x: int | 0 <= x < 256

  const LONG: nat := 0x1_0000_0000_0000_0000

  type Word = x: int | 0 <= x < WORD

  // ----- bytes and words, low-order byte first -----

  function LittleEndian(v: nat, k: nat): (s: seq<Byte>)
    ensures |s| == k
    decreases k, v
  {
    if k == 0 then [] else [v % 256] + LittleEndian(v / 256, k - 1)
  }

  function WordAt(s: seq<Byte>, i: nat): Word
    requires 4 * i + 4 <= |s|
  {
    var b0: int, b1: int, b2: int, b3: int := s[4 * i], s[4 * i + 1], s[4 * i + 2], s[4 * i + 3];
    b0 + 0x100 * b1 + 0x1_0000 * b2 + 0x100_0000 * b3
  }

  function Words(block: seq<Byte>): (x: seq<Word>)
    requires |block| == 64
  {
    seq(16, i requires 0 <= i < 16 => WordAt(block, i))
  }

  // ----- step 3.4: one block -----

  function Add(p: Word, q: Word): Word { (p + q) % WORD }

  /** F, G, H and I on bits. */
  function AuxBits(f: nat, x: bv32, y: bv32, z: bv32): bv32 {
    if f == 0 then (x & y) | (!x & z)
    else if f == 1 then (x & z) | (y & !z)
    else if f == 2 then x ^ y ^ z
    else y ^ (x | !z)
  }

  function Aux(f: nat, x: Word, y: Word, z: Word): Word {
    AuxBits(f, x as bv32, y as bv32, z as bv32) as int
  }

  /** w <<< s: circular shift, one position at a time. */
  function RotateBits(w: bv32, s: bv6): bv32
    decreases s
  {
    if s == 0 then w else RotateBits(RotateOne(w), s - 1)
  }

  function RotateOne(w: bv32): bv32 { (w << 1) | (w >> 31) }

  function Rotate(w: Word, s: nat): Word
    requires s < 32
  {
    RotateBits(w as bv32, s as bv6) as int
  }

  predicate RowOk(r: Row) { r.k < 16 && r.s < 32 && r.t < WORD }

  /** a = b + ((a + F(b, c, d) + X[k] + T[i]) <<< s) */
  function Operation(x: seq<Word>, r: Row, a: Word, b: Word, c: Word, d: Word): Word
    requires RowOk(r) && |x| == 16
  {
    Add(b, Rotate(Add(Add(Add(a, Aux(r.f, b, c, d)), x[r.k]), r.t), r.s))
  }

  function Operations(x: seq<Word>): Mix<Word> {
    (r: Row, a: Word, b: Word, c: Word, d: Word) => if RowOk(r) && |x| == 16 then Operation(x, r, a, b, c, d) else 0
  }

  function Plus(p: Quad<Word>, q: Quad<Word>): Quad<Word> {
    Quad(Add(p.a, q.a), Add(p.b, q.b), Add(p.c, q.c), Add(p.d, q.d))
  }

  function Compress(q: Quad<Word>, block: seq<Byte>): Quad<Word>
    requires |block| == 64
  {
    Plus(Steps(Operations(Words(block)), RowAt, q, 64), q)
  }

  type Compressor<!S> = (S, seq<Byte>) -> S

  function Compression(): Compressor<Quad<Word>> {
    (q: Quad<Word>, block: seq<Byte>) => if |block| == 64 then Compress(q, block) else q
  }

  /** All whole blocks of s, in order. */
  function Fold<S>(f: Compressor<S>, q: S, s: seq<Byte>): S
    decreases |s|
  {
    if |s| < 64 then q else Fold(f, f(q, s[..64]), s[64..])
  }

  // ----- steps 3.1 to 3.3 and 3.5 -----

  const INITIAL: Quad<Word> := Quad(0x67452301, 0xefcdab89, 0x98badcfe, 0x10325476)

  /** As many zero bytes as it takes to come to 56 modulo 64. */
  function Zeros(n: nat): nat { (119 - n % 64) % 64 }

  function Padding(n: nat): seq<Byte> {
    [0x80] + seq(Zeros(n), _ => 0) + LittleEndian(8 * n % LONG, 8)
  }

  function Output(q: Quad<Word>): (s: seq<Byte>)
    ensures |s| == 16
  {
    LittleEndian(q.a, 4) + LittleEndian(q.b, 4) + LittleEndian(q.c, 4) + LittleEndian(q.d, 4)
  }

  function Digest(msg: seq<Byte>): (s: seq<Byte>)
    ensures |s| == 16
  {
    Output(Fold(Compression(), INITIAL, msg + Padding(|msg|)))
  }

  /** The padding is the shortest that makes the length a multiple of 64. */
  lemma PaddingIsLeast(n: nat, z: nat)
    ensures (n + |Padding(n)|) % 64 == 0 && |Padding(n)| == Zeros(n) + 9
    ensures (n + 1 + z + 8) % 64 == 0 ==> Zeros(n) <= z
  {
    var r, q := n % 64, n / 64;
    assert n == 64 * q + r;
    var k := if r < 56 then 55 - r else 119 - r;
    assert Zeros(n) == k;
    DivUnique(n + k + 9, 64, if r < 56 then q + 1 else q + 2, 0);
    if (n + 1 + z + 8) % 64 == 0 { LeastZeros(q, r, k, z, (n + 9 + z) / 64); }
  }

  lemma LeastZeros(q: nat, r: nat, k: nat, z: nat, m: nat)
    requires r < 64 && k == (if r < 56 then 55 - r else 119 - r) && 64 * m == 64 * q + r + 9 + z
    ensures k <= z
  {
  }

  // ----- folding over a message in pieces -----

  lemma {:induction false} FoldConcat<S>(f: Compressor<S>, q: S, s: seq<Byte>, t: seq<Byte>)
    requires |s| % 64 == 0
    ensures Fold(f, q, s + t) == Fold(f, Fold(f, q, s), t)
    decreases |s|
  {
    if |s| < 64 {
      assert s + t == t;
    } else {
      assert (s + t)[..64] == s[..64] && (s + t)[64..] == s[64..] + t;
      FoldConcat(f, f(q, s[..64]), s[64..], t);
    }
  }

  lemma FoldOne<S>(f: Compressor<S>, q: S, s: seq<Byte>)
    requires |s| == 64
    ensures Fold(f, q, s) == f(q, s)
  {
    assert s[..64] == s;
  }

  // ----- the length in bits -----

  lemma {:induction false} LittleEndianSplit(v: nat, w: nat, i: nat, j: nat, p: nat)
    requires p == Power256(i) && v < p
    ensures LittleEndian(v + p * w, i + j) == LittleEndian(v, i) + LittleEndian(w, j)
    decreases i
  {
    if i > 0 {
      var p1 := Power256(i - 1);
      var x := p1 * w;
      Regroup(p, p1, w, x);
      LowestByte(v, x);
      LittleEndianSplit(v / 256, w, i - 1, j, p1);
    }
  }

  lemma Regroup(p: nat, p1: nat, w: nat, x: nat)
    requires p == 256 * p1 && x == p1 * w
    ensures p * w == 256 * x
  {
    assert (256 * p1) * w == 256 * (p1 * w);
  }

  lemma LowestByte(v: nat, x: nat)
    ensures (v + 256 * x) % 256 == v % 256 && (v + 256 * x) / 256 == v / 256 + x
  {
    DivUnique(v + 256 * x, 256, v / 256 + x, v % 256);
  }

  function Power256(i: nat): nat { if i == 0 then 1 else 256 * Power256(i - 1) }
}
