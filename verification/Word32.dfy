/** Unsigned 32-bit words. */
module Word32 {
  const WORD: int := 0x1_0000_0000

  function Wrap(x: int): int { x % WORD }

  lemma DivUnique(x: int, d: int, q: int, s: int)
    requires d > 0 && x == q * d + s && 0 <= s < d
    ensures x % d == s && x / d == q
  {
    var k := x / d - q;
    assert k * d == (x / d) * d - q * d;
    assert k * d == s - x % d;
    assert k >= 1 ==> k * d >= d;
    assert k <= -1 ==> k * d <= -d;
  }
}
