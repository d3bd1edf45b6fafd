/** Most-recently-used order, as plain sequences of ids. */
module LruOrder {
  function Without(s: seq<int>, x: int): seq<int> {
    if |s| == 0 then [] else if s[0] == x then s[1..] else [s[0]] + Without(s[1..], x)
  }

  ghost predicate Distinct(s: seq<int>) { forall i, j :: 0 <= i < j < |s| ==> s[i] != s[j] }

  /** All ids ever used, the latest first. */
  function MostRecent(history: seq<int>): seq<int> {
    if |history| == 0 then []
    else
      var x := history[|history| - 1];
      [x] + Without(MostRecent(history[..|history| - 1]), x)
  }

  /** How many of n entries stay: all, or a fifth of the lines (rounded up) goes. */
  function Kept(n: nat, lines: nat): int {
    if lines > 0 && n > lines then n - (lines + 4) / 5 else n
  }

  /** What a lookup makes of the cached ids. */
  function Touched(ids: seq<int>, x: int, lines: nat): seq<int>
    requires lines > 0 ==> |ids| <= lines
  {
    if x in ids then [x] + Without(ids, x) else ([x] + ids)[..Kept(|ids| + 1, lines)]
  }

  /** At least one line: the new entry stays and the limit holds again. */
  lemma EvictionLeavesRoom(n: nat, lines: nat)
    requires lines > 0 ==> n <= lines
    ensures 1 <= Kept(n + 1, lines) <= n + 1 && (lines > 0 ==> Kept(n + 1, lines) <= lines)
    ensures lines > 0 && n == lines ==> n + 1 - Kept(n + 1, lines) == (lines + 4) / 5 >= 1
  {
  }

  lemma {:induction false} WithoutIndex(s: seq<int>, k: nat)
    requires k < |s| && forall i :: 0 <= i < k ==> s[i] != s[k]
    ensures Without(s, s[k]) == s[..k] + s[k + 1..]
  {
    if k > 0 {
      WithoutIndex(s[1..], k - 1);
      assert s[1..][..k - 1] == s[1..k] && s[1..][k..] == s[k + 1..];
      assert s[..k] == [s[0]] + s[1..k];
    }
  }

  lemma {:induction false} WithoutAbsent(s: seq<int>, x: int)
    requires x !in s
    ensures Without(s, x) == s
  {
    if |s| > 0 {
      assert s == [s[0]] + s[1..];
      WithoutAbsent(s[1..], x);
    }
  }

  lemma {:induction false} WithoutPrefix(s: seq<int>, t: seq<int>, x: int)
    requires s <= t
    ensures x in s ==> Without(s, x) <= Without(t, x)
    ensures x !in s ==> s <= Without(t, x)
  {
    if |s| > 0 {
      assert t[0] == s[0] && s[1..] <= t[1..];
      if s[0] != x { WithoutPrefix(s[1..], t[1..], x); }
    }
  }

  /** The cached ids are always the most recently used ones. */
  lemma TouchedIsMostRecent(ids: seq<int>, x: int, lines: nat, history: seq<int>)
    requires lines > 0 ==> |ids| <= lines
    requires ids <= MostRecent(history)
    ensures Touched(ids, x, lines) <= MostRecent(history + [x])
  {
    assert (history + [x])[..|history|] == history;
    WithoutPrefix(ids, MostRecent(history), x);
    EvictionLeavesRoom(|ids|, lines);
  }

  /** The cached ids after a sequence of lookups. */
  function After(history: seq<int>, lines: nat): (ids: seq<int>)
    ensures lines > 0 ==> |ids| <= lines
  {
    if |history| == 0 then []
    else
      var ids, x := After(history[..|history| - 1], lines), history[|history| - 1];
      TouchedLength(ids, x, lines);
      Touched(ids, x, lines)
  }

  lemma {:induction false} WithoutLength(s: seq<int>, x: int)
    ensures |Without(s, x)| == if x in s then |s| - 1 else |s|
  {
    if |s| > 0 && s[0] != x { WithoutLength(s[1..], x); }
  }

  lemma TouchedLength(ids: seq<int>, x: int, lines: nat)
    requires lines > 0 ==> |ids| <= lines
    ensures |Touched(ids, x, lines)| == if x in ids then |ids| else Kept(|ids| + 1, lines)
  {
    WithoutLength(ids, x);
    EvictionLeavesRoom(|ids|, lines);
  }

  /** The fewest ids that an eviction leaves. */
  function Floor(lines: nat): int { lines + 1 - (lines + 4) / 5 }

  /** Whatever the lookups, the cache holds the most recently used ids, and at
      least as many of them as an eviction leaves; without a limit, all. */
  lemma {:induction false} AfterIsMostRecent(history: seq<int>, lines: nat)
    ensures After(history, lines) <= MostRecent(history)
    ensures lines == 0 ==> After(history, lines) == MostRecent(history)
    ensures |After(history, lines)| >= Floor(lines) || After(history, lines) == MostRecent(history)
  {
    if |history| > 0 {
      var before, x := history[..|history| - 1], history[|history| - 1];
      AfterIsMostRecent(before, lines);
      assert before + [x] == history;
      TouchedIsMostRecent(After(before, lines), x, lines, before);
      EnoughStay(After(before, lines), MostRecent(before), x, lines);
    }
  }

  lemma EnoughStay(ids: seq<int>, all: seq<int>, x: int, lines: nat)
    requires ids <= all && (lines > 0 ==> |ids| <= lines) && (lines == 0 ==> ids == all)
    requires |ids| >= Floor(lines) || ids == all
    ensures |Touched(ids, x, lines)| >= Floor(lines) || Touched(ids, x, lines) == [x] + Without(all, x)
    ensures lines == 0 ==> Touched(ids, x, lines) == [x] + Without(all, x)
  {
    TouchedLength(ids, x, lines);
    if ids == all && x !in ids { WithoutAbsent(ids, x); }
  }
}
