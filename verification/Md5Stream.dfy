/** The context of libc-parts/md5.c: a 128-byte staging buffer in front of the
    block function, fed in pieces of any length at any address. */
module Md5Stream {
  import opened Word32
  import opened Md5Schedule
  import opened Md5Spec
  import opened Md5

  /** total[0] += len; if (total[0] < len) ++total[1] */
  function Carried(lo: Word, hi: Word, len: Word): (Word, Word) {
    var lo' := (lo + len) % WORD;
    (lo', if lo' < len then (hi + 1) % WORD else hi)
  }

  ghost predicate Counted(lo: Word, hi: Word, n: nat) { lo + WORD * hi == n % LONG }

  method Carry(lo: Word, hi: Word, len: Word) returns (lo': Word, hi': Word)
    ensures (lo', hi') == Carried(lo, hi, len)
  {
    lo' := (lo + len) % WORD;
    hi' := if lo' < len then (hi + 1) % WORD else hi;
  }

  lemma ModStep(x: nat, m: nat)
    requires 0 < m && x < 2 * m
    ensures x % m == if x < m then x else x - m
  {
    if x >= m {
      assert x == 1 * m + (x - m);
      DivUnique(x, m, 1, x - m);
    }
  }

  lemma ModAdd(n: nat, v: nat, k: nat, m: nat)
    requires 0 < m && v == n % m && k < m
    ensures (n + k) % m == if v + k < m then v + k else v + k - m
  {
    var q := n / m;
    assert n == q * m + v;
    if v + k < m {
      DivUnique(n + k, m, q, v + k);
    } else {
      assert n + k == (q + 1) * m + (v + k - m) by { assert (q + 1) * m == q * m + m; }
      DivUnique(n + k, m, q + 1, v + k - m);
    }
  }

  /** The two halves count bytes modulo 2^64. */
  lemma CarriedCounts(lo: Word, hi: Word, len: Word, n: nat)
    requires Counted(lo, hi, n)
    ensures var (lo', hi') := Carried(lo, hi, len); Counted(lo', hi', n + len)
  {
    ModStep(lo + len, WORD);
    ModStep(hi + 1, WORD);
    ModAdd(n, lo + WORD * hi, len, LONG);
  }

  /** The count in bits: total[0] << 3 and (total[1] << 3) | (total[0] >> 29). */
  function LowBits(lo: Word): Word { 8 * lo % WORD }

  function HighBits(lo: Word, hi: Word): Word {
    ShiftedHigh(hi);
    8 * hi % WORD + lo / 0x2000_0000
  }

  lemma ShiftedHigh(hi: Word)
    ensures 8 * hi % WORD == 8 * (hi % 0x2000_0000)
  {
    var k := hi / 0x2000_0000;
    assert 8 * hi == k * WORD + 8 * (hi % 0x2000_0000);
    DivUnique(8 * hi, WORD, k, 8 * (hi % 0x2000_0000));
  }

  lemma AppendBit(c: bv32, x: Word)
    requires c as int == x / 2
    ensures (c << 1) as int + x % 2 == x && ((c << 1) | 1) as int == (c << 1) as int + 1
  {
  }

  lemma {:induction false} Bits(x: Word) returns (b: bv32)
    ensures b as int == x
  {
    if x == 0 {
      b := 0;
    } else {
      var c := Bits(x / 2);
      AppendBit(c, x);
      b := if x % 2 == 0 then c << 1 else (c << 1) | 1;
    }
  }

  lemma ShiftBits(w: bv32)
    ensures 8 * (w as int) == (w << 3) as int + WORD * ((w >> 29) as int)
  {
  }

  lemma TopBits(w: bv32)
    ensures (w >> 29) as int == (w as int) / 0x2000_0000
  {
  }

  lemma DisjointBits(h: bv32, l: bv32)
    ensures ((h << 3) | (l >> 29)) as int == (h << 3) as int + (l >> 29) as int
  {
  }

  lemma LowPart(x: Word, low: Word, top: int)
    requires 8 * x == low + WORD * top
    ensures low == LowBits(x)
  {
    DivUnique(8 * x, WORD, top, low);
  }

  lemma LowAgrees(w: bv32, x: Word)
    requires w as int == x
    ensures (w << 3) as int == LowBits(x)
  {
    ShiftBits(w);
    LowPart(x, (w << 3) as int, (w >> 29) as int);
  }

  lemma HighAgrees(l: bv32, h: bv32, lo: Word, hi: Word)
    requires l as int == lo && h as int == hi
    ensures ((h << 3) | (l >> 29)) as int == HighBits(lo, hi)
  {
    LowAgrees(h, hi);
    TopBits(l);
    DisjointBits(h, l);
  }

  /** LowBits and HighBits are what the shifts and the bitwise or make of the words. */
  lemma ShiftsAgree(lo: Word, hi: Word) returns (l: bv32, h: bv32)
    ensures l as int == lo && h as int == hi
    ensures (l << 3) as int == LowBits(lo) && ((h << 3) | (l >> 29)) as int == HighBits(lo, hi)
  {
    l := Bits(lo);
    h := Bits(hi);
    LowAgrees(l, lo);
    HighAgrees(l, h, lo, hi);
  }

  lemma BitCount(lo: Word, hi: Word, n: nat)
    requires Counted(lo, hi, n)
    ensures LowBits(lo) + WORD * HighBits(lo, hi) == 8 * n % LONG
  {
    var k, c := hi / 0x2000_0000, lo / 0x2000_0000;
    assert 8 * lo == c * WORD + 8 * (lo % 0x2000_0000);
    DivUnique(8 * lo, WORD, c, 8 * (lo % 0x2000_0000));
    var v := LowBits(lo) + WORD * HighBits(lo, hi);
    ShiftedHigh(hi);
    assert hi == 0x2000_0000 * k + hi % 0x2000_0000;
    assert 8 * (lo + WORD * hi) == k * LONG + v;
    var q := n / LONG;
    assert n == q * LONG + (lo + WORD * hi);
    assert 8 * n == (8 * q + k) * LONG + v;
    DivUnique(8 * n, LONG, 8 * q + k, v);
  }

  lemma LengthField(lo: Word, hi: Word, n: nat)
    requires Counted(lo, hi, n)
    ensures LittleEndian(LowBits(lo), 4) + LittleEndian(HighBits(lo, hi), 4) == LittleEndian(8 * n % LONG, 8)
  {
    BitCount(lo, hi, n);
    assert Power256(4) == WORD;
    LittleEndianSplit(LowBits(lo), HighBits(lo, hi), 4, 4, WORD);
  }

  lemma SumOfBlocks(i: nat, j: nat)
    requires i % 64 == 0 && j % 64 == 0
    ensures (i + j) % 64 == 0
  {
  }

  lemma AppendSlice(s: seq<Byte>, data: seq<Byte>, pos: nat, used: nat)
    requires pos + used <= |data|
    ensures s + data[..pos] + data[pos..][..used] == s + data[..pos + used]
    ensures pos + used == |data| ==> data[pos..][..used] == data[pos..] && data[..pos + used] == data
  {
    assert data[..pos + used] == data[..pos] + data[pos..][..used];
  }

  lemma AppendNext(s: seq<Byte>, data: seq<Byte>, used: nat)
    requires used + 64 <= |data|
    ensures s + data[..used] + data[used..used + 64] == s + data[..used + 64]
  {
    assert data[..used + 64] == data[..used] + data[used..used + 64];
  }

  class Context {
    var A: Word
    var B: Word
    var C: Word
    var D: Word
    var total0: Word
    var total1: Word
    var buflen: nat
    const buffer: array<Byte>
    /** The bytes that have gone through the block function. */
    ghost var done: seq<Byte>
    ghost const f: Compressor<Quad<Word>>

    ghost predicate Blocks()
      reads this
    {
      IsMd5(f) && |done| % 64 == 0 && Quad(A, B, C, D) == Fold(f, INITIAL, done)
    }

    /** Between calls: whole blocks are done and counted, at most one block is staged. */
    ghost predicate Valid()
      reads this
    {
      && buffer.Length == 128 && buflen <= 64 && Blocks()
      && Counted(total0, total1, |done|)
    }

    /** All bytes fed so far. */
    ghost function Message(): seq<Byte>
      requires buflen <= buffer.Length
      reads this, buffer
    {
      done + buffer[..buflen]
    }

    /** md5_init_ctx */
    constructor ()
      ensures Valid() && Message() == [] && fresh(buffer)
    {
      A, B, C, D := 0x67452301, 0xefcdab89, 0x98badcfe, 0x10325476;
      total0, total1, buflen := 0, 0, 0;
      buffer := new Byte[128];
      done := [];
      f := Compression();
      CompressionIsMd5();
    }

    /** md5_process_block */
    method ProcessBlock(data: seq<Byte>)
      requires Blocks() && |data| % 64 == 0 && |data| < WORD
      modifies `A, `B, `C, `D, `total0, `total1, `done
      ensures Blocks() && done == old(done) + data && (total0, total1) == Carried(old(total0), old(total1), |data|)
    {
      SumOfBlocks(|done|, |data|);
      var r := CompressBlocks(Quad(A, B, C, D), data, f);
      FoldConcat(f, INITIAL, done, data);
      total0, total1 := Carry(total0, total1, |data|);
      A, B, C, D := r.a, r.b, r.c, r.d;
      done := done + data;
    }

    /** A whole number of blocks is done and counted. */
    method Absorb(data: seq<Byte>)
      requires Blocks() && Counted(total0, total1, |done|) && |data| % 64 == 0 && |data| < WORD
      modifies `A, `B, `C, `D, `total0, `total1, `done
      ensures Blocks() && Counted(total0, total1, |done|) && done == old(done) + data
    {
      CarriedCounts(total0, total1, |data|, |done|);
      ProcessBlock(data);
    }

    /** memcpy (&ctx->buffer[at], data, |data|) */
    method Stage(at: nat, data: seq<Byte>)
      requires at + |data| <= buffer.Length
      modifies buffer
      ensures buffer[..at] == old(buffer[..at]) && buffer[at..at + |data|] == data
      ensures buffer[..at + |data|] == old(buffer[..at]) + data
    {
      forall i | 0 <= i < |data| {
        buffer[at + i] := data[i];
      }
    }

    /** Keep the bytes after the first n as the only staged ones. */
    method ShiftDown(n: nat, len: nat)
      requires n + len <= buffer.Length && len <= n
      modifies buffer
      ensures buffer[..len] == old(buffer[n..n + len])
    {
      forall i | 0 <= i < len {
        buffer[i] := buffer[n + i];
      }
    }

    /** Top up a non-empty buffer; add bytes of the data are consumed. */
    method TopUp(data: seq<Byte>) returns (add: nat)
      requires Valid() && buflen != 0
      modifies this, buffer
      ensures Valid() && add <= |data| && (add < |data| ==> buflen == 0)
      ensures Message() == old(Message()) + data[..add]
    {
      var left := buflen;
      add := if 128 - left > |data| then |data| else 128 - left;
      Stage(left, data[..add]);
      buflen := buflen + add;
      if buflen > 64 {
        Drain(left + add);
      }
    }

    /** More than one block is staged: process the whole blocks. */
    method Drain(len: nat)
      requires buffer.Length == 128 && 64 < len <= 128 && buflen == len && Blocks() && Counted(total0, total1, |done|)
      modifies this, buffer
      ensures Valid() && Message() == old(Message()) && (len == 128 ==> buflen == 0)
    {
      var n := len / 64 * 64;
      ghost var staged := buffer[..len];
      Absorb(buffer[..n]);
      buflen := len % 64;
      ShiftDown(n, buflen);
      assert staged[n..] == buffer[..buflen];
      assert staged == staged[..n] + staged[n..];
    }

    /** md5_process_block (memcpy (ctx->buffer, block, 64), 64, ctx) */
    method ThroughBuffer(block: seq<Byte>)
      requires Valid() && buflen == 0 && |block| == 64
      modifies this, buffer
      ensures Valid() && buflen == 0 && done == old(done) + block
    {
      Stage(0, block);
      assert buffer[..64] == block;
      Absorb(buffer[..64]);
    }

    /** The unaligned path: one block at a time through the buffer. */
    method BlockByBlock(data: seq<Byte>) returns (used: nat)
      requires Valid() && buflen == 0 && |data| >= 64
      modifies this, buffer
      ensures Valid() && buflen == 0 && used <= |data| && 0 < |data| - used <= 64
      ensures Message() == old(Message()) + data[..used]
    {
      used := 0;
      while |data| - used > 64
        invariant Valid() && buflen == 0 && used < |data|
        invariant done == old(done) + data[..used]
      {
        AppendNext(old(done), data, used);
        ThroughBuffer(data[used..used + 64]);
        used := used + 64;
      }
    }

    /** Process available complete blocks; addr is where the data lies. */
    method Bulk(data: seq<Byte>, addr: nat) returns (used: nat)
      requires Valid() && buflen == 0 && 64 <= |data| < WORD
      modifies this, buffer
      ensures Valid() && buflen == 0 && used <= |data| && |data| - used <= 64
      ensures Message() == old(Message()) + data[..used]
    {
      if addr % 4 != 0 {
        used := BlockByBlock(data);
      } else {
        used := |data| / 64 * 64;
        Absorb(data[..used]);
      }
    }

    /** Process one staged block and move what follows it to the front. */
    method FirstBlock(len: nat)
      requires Valid() && buflen == 0 && 64 <= len <= 128
      modifies this, buffer
      ensures Valid() && buflen == 0 && done + buffer[..len - 64] == old(done) + old(buffer[..len])
    {
      ghost var staged := buffer[..len];
      Absorb(buffer[..64]);
      ShiftDown(64, len - 64);
      assert staged == staged[..64] + staged[64..];
    }

    /** Move remaining bytes into the buffer. */
    method Rest(data: seq<Byte>)
      requires Valid() && |data| <= 64 && (|data| > 0 ==> buflen == 0)
      modifies this, buffer
      ensures Valid() && Message() == old(Message()) + data
    {
      if |data| > 0 {
        var left := buflen;
        Stage(left, data);
        left := left + |data|;
        if left >= 64 {
          FirstBlock(left);
          left := left - 64;
        }
        buflen := left;
      }
    }

    /** md5_process_bytes: the data is appended to the message. */
    method ProcessBytes(data: seq<Byte>, addr: nat)
      requires Valid() && |data| < WORD
      modifies this, buffer
      ensures Valid() && Message() == old(Message()) + data
    {
      var pos := 0;
      if buflen != 0 {
        pos := TopUp(data);
      }
      ghost var msg := old(Message());
      assert Message() == msg + data[..pos];
      if |data| - pos >= 64 {
        var used := Bulk(data[pos..], addr + pos);
        AppendSlice(msg, data, pos, used);
        pos := pos + used;
      }
      AppendSlice(msg, data, pos, |data| - pos);
      Rest(data[pos..]);
    }

    /** memcpy (&ctx->buffer[bytes], fillbuf, pad), then the bit count. */
    method WritePadding(bytes: nat, pad: nat, lo: Word, hi: Word)
      requires buffer.Length == 128 && 0 < pad <= 64 && bytes + pad + 8 <= 128
      modifies buffer
      ensures buffer[..bytes + pad + 8] == old(buffer[..bytes]) + ([0x80] + seq(pad - 1, _ => 0))
        + LittleEndian(lo, 4) + LittleEndian(hi, 4)
    {
      var fill: seq<Byte> := [0x80] + seq(pad - 1, _ => 0);
      Stage(bytes, fill);
      Stage(bytes + pad, LittleEndian(lo, 4));
      Stage(bytes + pad + 4, LittleEndian(hi, 4));
    }

    /** The two words of the length in bits. */
    method LengthWords(ghost n: nat) returns (lo: Word, hi: Word)
      requires Counted(total0, total1, n)
      ensures LittleEndian(lo, 4) + LittleEndian(hi, 4) == LittleEndian(8 * n % LONG, 8)
    {
      lo, hi := LowBits(total0), HighBits(total0, total1);
      LengthField(total0, total1, n);
    }

    /** md5_finish_ctx: the digest of everything fed in. */
    method Finish() returns (r: seq<Byte>)
      requires Valid()
      modifies this, buffer
      ensures r == Digest(old(Message()))
    {
      ghost var msg := Message();
      ProcessLast();
      DigestWith(f, msg);
      r := Output(Quad(A, B, C, D));
    }

    /** Pad, append the length, process the last one or two blocks. */
    method ProcessLast()
      requires Valid()
      modifies this, buffer
      ensures IsMd5(f) && Quad(A, B, C, D) == Fold(f, INITIAL, old(Message()) + Padding(|old(Message())|))
    {
      ghost var msg := Message();
      CountStaged();
      var n := Pad(buflen);
      ProcessBlock(buffer[..n]);
    }

    /** Now count remaining bytes. */
    method CountStaged()
      requires Valid()
      modifies `total0, `total1
      ensures Counted(total0, total1, |done| + buflen)
    {
      CarriedCounts(total0, total1, buflen, |done|);
      total0, total1 := Carry(total0, total1, buflen);
    }

    /** Complete the staged bytes to one or two blocks. */
    method Pad(bytes: nat) returns (n: nat)
      requires buffer.Length == 128 && bytes <= 64 && |done| % 64 == 0 && Counted(total0, total1, |done| + bytes)
      modifies buffer
      ensures n <= 128 && n % 64 == 0
      ensures done + buffer[..n] == done + old(buffer[..bytes]) + Padding(|done| + bytes)
    {
      var lo, hi := LengthWords(|done| + bytes);
      var pad := if bytes >= 56 then 64 + 56 - bytes else 56 - bytes;
      PadIsPadding(|done|, bytes, pad);
      WritePadding(bytes, pad, lo, hi);
      n := bytes + pad + 8;
      PaddedMessage(done, old(buffer[..bytes]), done + old(buffer[..bytes]), buffer[..n], lo, hi);
    }
  }

  /** The code's padding length is the standard's. */
  lemma PadIsPadding(n: nat, bytes: nat, pad: nat)
    requires n % 64 == 0 && bytes <= 64 && pad == if bytes >= 56 then 120 - bytes else 56 - bytes
    ensures Zeros(n + bytes) == pad - 1 && (bytes + pad + 8) % 64 == 0 && bytes + pad + 8 <= 128
  {
    var r := if bytes == 64 then 0 else bytes;
    assert (n + bytes) % 64 == r;
  }

  lemma PaddedMessage(done: seq<Byte>, staged: seq<Byte>, msg: seq<Byte>, last: seq<Byte>, lo: Word, hi: Word)
    requires msg == done + staged && LittleEndian(lo, 4) + LittleEndian(hi, 4) == LittleEndian(8 * |msg| % LONG, 8)
    requires last == staged + ([0x80] + seq(Zeros(|msg|), _ => 0)) + LittleEndian(lo, 4) + LittleEndian(hi, 4)
    ensures done + last == msg + Padding(|msg|)
  {
    var fill: seq<Byte> := [0x80] + seq(Zeros(|msg|), _ => 0);
    PiecesTogether(done, staged, fill, LittleEndian(lo, 4), LittleEndian(hi, 4), LittleEndian(8 * |msg| % LONG, 8));
  }

  lemma PiecesTogether(a: seq<Byte>, b: seq<Byte>, c: seq<Byte>, l: seq<Byte>, h: seq<Byte>, lh: seq<Byte>)
    requires l + h == lh
    ensures a + (b + c + l + h) == a + b + (c + lh)
  {
  }

  /** md5_buffer */
  method Buffer(data: seq<Byte>, addr: nat) returns (r: seq<Byte>)
    requires |data| < WORD
    ensures r == Digest(data)
  {
    var ctx := new Context();
    ctx.ProcessBytes(data, addr);
    assert ctx.Message() == data;
    r := ctx.Finish();
  }

  function Joined(pieces: seq<seq<Byte>>): seq<Byte> {
    if |pieces| == 0 then [] else Joined(pieces[..|pieces| - 1]) + pieces[|pieces| - 1]
  }

  /** However a message is cut into pieces and wherever they lie, the digest is
      that of the whole message. */
  method InPieces(pieces: seq<seq<Byte>>, addrs: seq<nat>) returns (r: seq<Byte>)
    requires |addrs| == |pieces| && forall i :: 0 <= i < |pieces| ==> |pieces[i]| < WORD
    ensures r == Digest(Joined(pieces))
  {
    var ctx := new Context();
    var i := 0;
    while i < |pieces|
      invariant 0 <= i <= |pieces| && fresh(ctx) && fresh(ctx.buffer) && ctx.Valid()
      invariant ctx.Message() == Joined(pieces[..i])
    {
      ctx.ProcessBytes(pieces[i], addrs[i]);
      assert pieces[..i + 1][..i] == pieces[..i];
      i := i + 1;
    }
    assert pieces[..i] == pieces;
    r := ctx.Finish();
  }
}
