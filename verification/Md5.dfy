/** The streaming MD5 of libc-parts/md5.c: a context fed piece by piece. */
module Md5 {
  import opened Word32
  import opened Md5Schedule
  import opened Md5Spec

  // ----- the round macros -----

  function FF(b: bv32, c: bv32, d: bv32): bv32 { d ^ (b & (c ^ d)) }

  function FG(b: bv32, c: bv32, d: bv32): bv32 { FF(d, b, c) }

  function FH(b: bv32, c: bv32, d: bv32): bv32 { b ^ c ^ d }

  function FI(b: bv32, c: bv32, d: bv32): bv32 { c ^ (b | !d) }

  function CodeAuxBits(f: nat, b: bv32, c: bv32, d: bv32): bv32 {
    if f == 0 then FF(b, c, d) else if f == 1 then FG(b, c, d) else if f == 2 then FH(b, c, d) else FI(b, c, d)
  }

  function CodeAux(f: nat, b: Word, c: Word, d: Word): Word {
    CodeAuxBits(f, b as bv32, c as bv32, d as bv32) as int
  }

  function CyclicBits(w: bv32, s: bv6): bv32
    requires s <= 32
  {
    (w << s) | (w >> (32 - s))
  }

  function Cyclic(w: Word, s: nat): Word
    requires s < 32
  {
    CyclicBits(w as bv32, s as bv6) as int
  }

  /** The OP macros: a += f + x + T; CYCLIC (a, s); a += b */
  function CodeOperation(x: seq<Word>, r: Row, a: Word, b: Word, c: Word, d: Word): Word
    requires RowOk(r) && |x| == 16
  {
    Add(Cyclic(Add(a, Add(Add(CodeAux(r.f, b, c, d), x[r.k]), r.t)), r.s), b)
  }

  function CodeOperations(x: seq<Word>): Mix<Word> {
    (r: Row, a: Word, b: Word, c: Word, d: Word) => if RowOk(r) && |x| == 16 then CodeOperation(x, r, a, b, c, d) else 0
  }

  lemma SelectBits(b: bv32, c: bv32, d: bv32)
    ensures d ^ (b & (c ^ d)) == (b & c) | (!b & d)
  {
  }

  lemma SwapBits(b: bv32, c: bv32, d: bv32)
    ensures (d & b) | (!d & c) == (b & d) | (c & !d)
  {
  }

  lemma FFAgrees(b: bv32, c: bv32, d: bv32)
    ensures FF(b, c, d) == AuxBits(0, b, c, d)
  {
    SelectBits(b, c, d);
  }

  lemma FGAgrees(b: bv32, c: bv32, d: bv32)
    ensures FG(b, c, d) == AuxBits(1, b, c, d)
  {
    SelectBits(d, b, c);
    SwapBits(b, c, d);
  }

  /** The cheaper forms of F and G compute the same bits. */
  lemma MacrosAgree(f: nat, b: bv32, c: bv32, d: bv32)
    ensures CodeAuxBits(f, b, c, d) == AuxBits(f, b, c, d)
  {
    if f == 0 {
      FFAgrees(b, c, d);
    } else if f == 1 {
      FGAgrees(b, c, d);
    }
  }

  lemma CyclicZero(w: bv32)
    ensures (w << 0) | (w >> 32) == w
  {
  }

  lemma CyclicStep(w: bv32, s: bv6)
    requires 0 < s < 32
    ensures CyclicBits(w, s) == CyclicBits(RotateOne(w), s - 1)
  {
    ShiftedRotation(w, s);
  }

  lemma ShiftedRotation(w: bv32, s: bv6)
    requires 0 < s < 32
    ensures (w << s) | (w >> (32 - s)) == var v := (w << 1) | (w >> 31); (v << (s - 1)) | (v >> (33 - s))
  {
  }

  /** Two shifts make a rotation. */
  lemma {:induction false} CyclicIsRotation(w: bv32, s: bv6)
    requires s < 32
    ensures CyclicBits(w, s) == RotateBits(w, s)
    decreases s
  {
    if s == 0 {
      CyclicZero(w);
    } else {
      CyclicStep(w, s);
      CyclicIsRotation(RotateOne(w), s - 1);
    }
  }

  lemma AddValue(p: Word, q: Word)
    ensures Add(p, q) == if p + q < WORD then p + q else p + q - WORD
  {
  }

  lemma AddAssociates(p: Word, q: Word, r: Word)
    ensures Add(p, Add(q, r)) == Add(Add(p, q), r)
  {
    AddValue(q, r);
    AddValue(p, q);
    AddValue(p, Add(q, r));
    AddValue(Add(p, q), r);
  }

  lemma AddRegroups(a: Word, y: Word, x: Word, t: Word)
    ensures Add(a, Add(Add(y, x), t)) == Add(Add(Add(a, y), x), t)
  {
    AddAssociates(a, Add(y, x), t);
    AddAssociates(a, y, x);
  }

  lemma AuxAgrees(f: nat, b: Word, c: Word, d: Word)
    ensures CodeAux(f, b, c, d) == Aux(f, b, c, d)
  {
    MacrosAgree(f, b as bv32, c as bv32, d as bv32);
  }

  lemma RotateAgrees(w: Word, s: nat)
    requires s < 32
    ensures Cyclic(w, s) == Rotate(w, s)
  {
    CyclicIsRotation(w as bv32, s as bv6);
  }

  /** The code's operation is the one of the standard. */
  lemma OperationAgrees(x: seq<Word>, r: Row, a: Word, b: Word, c: Word, d: Word)
    requires RowOk(r) && |x| == 16
    ensures CodeOperation(x, r, a, b, c, d) == Operation(x, r, a, b, c, d)
  {
    var y := Aux(r.f, b, c, d);
    AuxAgrees(r.f, b, c, d);
    AddRegroups(a, y, x[r.k], r.t);
    RotateAgrees(Add(Add(Add(a, y), x[r.k]), r.t), r.s);
  }

  lemma {:induction false} StepsAgree(x: seq<Word>, q: Quad<Word>, n: nat)
    ensures Steps(CodeOperations(x), RowAt, q, n) == Steps(Operations(x), RowAt, q, n)
  {
    if n > 0 {
      StepsAgree(x, q, n - 1);
      var p, r := Steps(Operations(x), RowAt, q, n - 1), RowAt(n - 1);
      if RowOk(r) && |x| == 16 { OperationAgrees(x, r, p.a, p.b, p.c, p.d); }
    }
  }

  /** The body of the loop of md5_process_block. */
  method CompressBlock(q: Quad<Word>, block: seq<Byte>) returns (r: Quad<Word>)
    requires |block| == 64
    ensures r == Compress(q, block)
  {
    var x := Words(block);
    var op := CodeOperations(x);
    var q1 := Round1(op, q, RowAt, q);
    var q2 := Round2(op, q1, RowAt, q);
    var q3 := Round3(op, q2, RowAt, q);
    var q4 := Round4(op, q3, RowAt, q);
    StepsAgree(x, q, 64);
    r := Plus(q4, q);
  }

  ghost predicate SameAt(f: Compressor<Quad<Word>>, q: Quad<Word>, block: seq<Byte>) {
    |block| == 64 ==> f(q, block) == Compress(q, block)
  }

  /** f is the block function of MD5. */
  ghost predicate IsMd5(f: Compressor<Quad<Word>>) {
    forall q, block {:trigger SameAt(f, q, block)} :: SameAt(f, q, block)
  }

  /** The loop of md5_process_block: LEN % 64 == 0. */
  method CompressBlocks(q: Quad<Word>, data: seq<Byte>, ghost f: Compressor<Quad<Word>>) returns (r: Quad<Word>)
    requires IsMd5(f) && |data| % 64 == 0
    ensures r == Fold(f, q, data)
  {
    r := q;
    var i := 0;
    while i < |data|
      invariant 0 <= i <= |data| && i % 64 == 0 && r == Fold(f, q, data[..i])
    {
      NextBlock(f, q, data, i);
      assert SameAt(f, r, data[i..i + 64]);
      r := CompressBlock(r, data[i..i + 64]);
      i := i + 64;
    }
    assert data[..i] == data;
  }

  lemma NextBlock<S>(f: Compressor<S>, q: S, data: seq<Byte>, i: nat)
    requires i % 64 == 0 && |data| % 64 == 0 && i < |data|
    ensures i + 64 <= |data| && (i + 64) % 64 == 0
    ensures Fold(f, q, data[..i + 64]) == f(Fold(f, q, data[..i]), data[i..i + 64])
  {
    assert data[..i + 64] == data[..i] + data[i..i + 64];
    FoldConcat(f, q, data[..i], data[i..i + 64]);
    FoldOne(f, Fold(f, q, data[..i]), data[i..i + 64]);
  }

  lemma CompressionIsMd5()
    ensures IsMd5(Compression())
  {
    forall q: Quad<Word>, block: seq<Byte> ensures SameAt(Compression(), q, block) { }
  }

  lemma {:induction false} FoldSame(f: Compressor<Quad<Word>>, g: Compressor<Quad<Word>>, q: Quad<Word>, s: seq<Byte>)
    requires IsMd5(f) && IsMd5(g)
    ensures Fold(f, q, s) == Fold(g, q, s)
    decreases |s|
  {
    if |s| >= 64 {
      assert SameAt(f, q, s[..64]) && SameAt(g, q, s[..64]);
      FoldSame(f, g, f(q, s[..64]), s[64..]);
    }
  }

  lemma DigestWith(f: Compressor<Quad<Word>>, msg: seq<Byte>)
    requires IsMd5(f)
    ensures Digest(msg) == Output(Fold(f, INITIAL, msg + Padding(|msg|)))
  {
    CompressionIsMd5();
    FoldSame(f, Compression(), INITIAL, msg + Padding(|msg|));
  }
}
