/** Word-addressed memory and the circular doubly linked lists that thread
    free chunks through their own user area (deva/malloc.c fd and bk fields). */
module ChunkMemory {
  /** Words by byte address; a word never written reads as zero. */
  type Mem = map<int, int>

  function Rd(m: Mem, a: int): int { if a in m then m[a] else 0 }

  function Foot(m: Mem, p: int): int { Rd(m, p) }
  function Head(m: Mem, p: int): int { Rd(m, p + 4) }
  function Fd(m: Mem, p: int): int { Rd(m, p + 8) }
  function Bk(m: Mem, p: int): int { Rd(m, p + 12) }

  /** chunksize: the head word with its two flag bits masked off. */
  function ChunkSize(m: Mem, p: int): int { Head(m, p) - Head(m, p) % 4 }
  predicate PrevInuse(m: Mem, p: int) { Head(m, p) % 2 == 1 }
  predicate IsMmapped(m: Mem, p: int) { Head(m, p) / 2 % 2 == 1 }
  /** The head word with the PREV_INUSE bit set. */
  function WithPrevInuse(h: int): int { h - h % 2 + 1 }

  /** Make b the fd-successor of a and a the bk-predecessor of b. */
  function Wire(m: Mem, a: int, b: int): Mem { m[b + 12 := a][a + 8 := b] }

  /** Node j of the circular list hdr, s[0], s[1], ..., hdr; both ends are hdr. */
  ghost function At(hdr: int, s: seq<int>, j: int): int {
    if 0 <= j < |s| then s[j] else hdr
  }

  ghost predicate Link(m: Mem, hdr: int, s: seq<int>, j: int) {
    && Fd(m, At(hdr, s, j)) == At(hdr, s, j + 1)
    && Bk(m, At(hdr, s, j + 1)) == At(hdr, s, j)
  }

  /** The list headed by hdr holds exactly the nodes s, front (fd) first. */
  ghost predicate ListRep(m: Mem, hdr: int, s: seq<int>) {
    forall j :: -1 <= j < |s| ==> Link(m, hdr, s, j)
  }

  ghost predicate Distinct(s: seq<int>) {
    forall i, j :: 0 <= i < j < |s| ==> s[i] != s[j]
  }

  /** Distinct nodes, 8-byte aligned, so link words of different nodes differ. */
  ghost predicate NodesOk(hdr: int, s: seq<int>) {
    && hdr % 8 == 0
    && hdr !in s
    && Distinct(s)
    && forall j :: 0 <= j < |s| ==> s[j] % 8 == 0
  }

  ghost function Without(s: seq<int>, k: int): seq<int>
    requires 0 <= k < |s|
  {
    s[..k] + s[k + 1..]
  }

  ghost function With(s: seq<int>, k: int, p: int): seq<int>
    requires 0 <= k <= |s|
  {
    s[..k] + [p] + s[k..]
  }

  lemma AtAligned(hdr: int, s: seq<int>, j: int)
    requires NodesOk(hdr, s)
    ensures At(hdr, s, j) % 8 == 0
  {
  }

  /** Sources of links are distinct by index, and so are targets. */
  lemma AtDistinct(hdr: int, s: seq<int>, i: int, j: int)
    requires NodesOk(hdr, s) && i != j
    requires -1 <= i < |s| && -1 <= j < |s|
    ensures At(hdr, s, i) != At(hdr, s, j)
    ensures At(hdr, s, i + 1) != At(hdr, s, j + 1)
  {
  }

  lemma WireFrame(m: Mem, a: int, b: int, x: int, y: int)
    requires a % 8 == 0 && b % 8 == 0 && x % 8 == 0 && y % 8 == 0
    ensures Fd(Wire(m, a, b), a) == b && Bk(Wire(m, a, b), b) == a
    ensures x != a ==> Fd(Wire(m, a, b), x) == Fd(m, x)
    ensures y != b ==> Bk(Wire(m, a, b), y) == Bk(m, y)
  {
  }

  /** Unlinking node k leaves the list without it. */
  lemma UnlinkRep(m: Mem, hdr: int, s: seq<int>, k: int)
    requires ListRep(m, hdr, s) && NodesOk(hdr, s) && 0 <= k < |s|
    ensures Bk(m, s[k]) == At(hdr, s, k - 1) && Fd(m, s[k]) == At(hdr, s, k + 1)
    ensures ListRep(Wire(m, At(hdr, s, k - 1), At(hdr, s, k + 1)), hdr, Without(s, k))
  {
    assert Link(m, hdr, s, k - 1) && Link(m, hdr, s, k);
    var s' := Without(s, k);
    var a, b := At(hdr, s, k - 1), At(hdr, s, k + 1);
    AtAligned(hdr, s, k - 1);
    AtAligned(hdr, s, k + 1);
    forall j | -1 <= j < |s'| ensures Link(Wire(m, a, b), hdr, s', j) {
      UnlinkStep(m, hdr, s, k, j);
    }
  }

  lemma UnlinkStep(m: Mem, hdr: int, s: seq<int>, k: int, j: int)
    requires ListRep(m, hdr, s) && NodesOk(hdr, s) && 0 <= k < |s|
    requires -1 <= j < |s| - 1
    ensures Link(Wire(m, At(hdr, s, k - 1), At(hdr, s, k + 1)), hdr, Without(s, k), j)
  {
    var i := if j < k then j else j + 1;
    var i' := if j + 1 < k then j + 1 else j + 2;
    assert At(hdr, Without(s, k), j) == At(hdr, s, i);
    assert At(hdr, Without(s, k), j + 1) == At(hdr, s, i');
    AtAligned(hdr, s, i);
    AtAligned(hdr, s, i');
    AtAligned(hdr, s, k - 1);
    AtAligned(hdr, s, k + 1);
    WireFrame(m, At(hdr, s, k - 1), At(hdr, s, k + 1), At(hdr, s, i), At(hdr, s, i'));
    if j != k - 1 {
      assert Link(m, hdr, s, i);
      AtDistinct(hdr, s, i, k - 1);
      AtDistinct(hdr, s, i, k);
    }
  }

  /** Linking p in before node k (between bck = node k-1 and fwd = node k). */
  lemma InsertRep(m: Mem, hdr: int, s: seq<int>, k: int, p: int)
    requires ListRep(m, hdr, s) && NodesOk(hdr, s) && 0 <= k <= |s|
    requires p != hdr && p !in s && p % 8 == 0
    ensures ListRep(Wire(Wire(m, At(hdr, s, k - 1), p), p, At(hdr, s, k)), hdr, With(s, k, p))
    ensures NodesOk(hdr, With(s, k, p))
  {
    var s' := With(s, k, p);
    var m' := Wire(Wire(m, At(hdr, s, k - 1), p), p, At(hdr, s, k));
    forall j | -1 <= j < |s'| ensures Link(m', hdr, s', j) {
      InsertStep(m, hdr, s, k, p, j);
    }
  }

  lemma InsertStep(m: Mem, hdr: int, s: seq<int>, k: int, p: int, j: int)
    requires ListRep(m, hdr, s) && NodesOk(hdr, s) && 0 <= k <= |s|
    requires p != hdr && p !in s && p % 8 == 0
    requires -1 <= j <= |s|
    ensures Link(Wire(Wire(m, At(hdr, s, k - 1), p), p, At(hdr, s, k)), hdr, With(s, k, p), j)
  {
    var a, b := At(hdr, s, k - 1), At(hdr, s, k);
    var m1 := Wire(m, a, p);
    var s' := With(s, k, p);
    var x, y := At(hdr, s', j), At(hdr, s', j + 1);
    AtAligned(hdr, s, k - 1);
    AtAligned(hdr, s, k);
    if j == k - 1 {
      assert x == a && y == p;
      WireFrame(m, a, p, x, y);
      WireFrame(m1, p, b, x, y);
      assert p != a && p != b;
    } else if j == k {
      assert x == p && y == b;
      WireFrame(m1, p, b, x, y);
    } else {
      var i := if j < k then j else j - 1;
      assert x == At(hdr, s, i) && y == At(hdr, s, i + 1);
      AtAligned(hdr, s, i);
      AtAligned(hdr, s, i + 1);
      WireFrame(m, a, p, x, y);
      WireFrame(m1, p, b, x, y);
      assert Link(m, hdr, s, i);
      AtDistinct(hdr, s, i, k - 1);
    }
  }

  /** A list survives writes that miss its link words. */
  lemma ListFrame(m: Mem, m': Mem, hdr: int, s: seq<int>)
    requires ListRep(m, hdr, s)
    requires Fd(m', hdr) == Fd(m, hdr) && Bk(m', hdr) == Bk(m, hdr)
    requires forall j :: 0 <= j < |s| ==> Fd(m', s[j]) == Fd(m, s[j]) && Bk(m', s[j]) == Bk(m, s[j])
    ensures ListRep(m', hdr, s)
  {
    forall j | -1 <= j < |s| ensures Link(m', hdr, s, j) {
      assert Link(m, hdr, s, j);
    }
  }

  /** The chain of a fastbin: singly linked through fd, ended by zero. */
  ghost predicate FastLink(m: Mem, s: seq<int>, j: int)
    requires 0 <= j < |s|
  {
    Fd(m, s[j]) == if j + 1 < |s| then s[j + 1] else 0
  }

  ghost predicate FastRep(m: Mem, head: int, s: seq<int>) {
    && head == (if s == [] then 0 else s[0])
    && forall j :: 0 <= j < |s| ==> FastLink(m, s, j)
  }

  lemma FastFrame(m: Mem, m': Mem, head: int, s: seq<int>)
    requires FastRep(m, head, s)
    requires forall j :: 0 <= j < |s| ==> Fd(m', s[j]) == Fd(m, s[j])
    ensures FastRep(m', head, s)
  {
    forall j | 0 <= j < |s| ensures FastLink(m', s, j) {
      assert FastLink(m, s, j);
    }
  }

  lemma FastPopRep(m: Mem, head: int, s: seq<int>)
    requires FastRep(m, head, s) && s != []
    ensures FastRep(m, Fd(m, head), s[1..])
  {
    assert FastLink(m, s, 0);
    forall j | 0 <= j < |s| - 1 ensures FastLink(m, s[1..], j) {
      assert FastLink(m, s, j + 1);
    }
  }

  lemma FastPushRep(m: Mem, head: int, s: seq<int>, p: int)
    requires FastRep(m, head, s) && p !in s
    requires forall j :: 0 <= j < |s| ==> s[j] % 8 == 0
    requires p % 8 == 0
    ensures FastRep(m[p + 8 := head], p, [p] + s)
  {
    var m' := m[p + 8 := head];
    var t := [p] + s;
    forall j | 0 <= j < |t| ensures FastLink(m', t, j) {
      if j > 0 {
        assert FastLink(m, s, j - 1);
        assert s[j - 1] in s && t[j] == s[j - 1];
      }
    }
  }
}
