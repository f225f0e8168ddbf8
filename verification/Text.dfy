/** Searching and replacing in strings, as the agent's standard library does it. */
module Text {

  predicate OccursAt(s: string, t: string, k: int) { 0 <= k <= |s| - |t| && s[k..k + |t|] == t }

  ghost predicate Contains(s: string, t: string) { exists k :: OccursAt(s, t, k) }

  /** The leftmost occurrence, or -1. */
  function Index(s: string, t: string): (k: int)
    ensures k >= 0 ==> OccursAt(s, t, k)
    ensures forall j :: OccursAt(s, t, j) ==> 0 <= k <= j
  {
    IndexFrom(s, t, 0)
  }

  function IndexFrom(s: string, t: string, from: nat): (k: int)
    ensures k >= 0 ==> from <= k && OccursAt(s, t, k)
    ensures forall j :: from <= j && OccursAt(s, t, j) ==> 0 <= k <= j
    decreases |s| - from
  {
    if from > |s| - |t| then -1
    else if s[from..from + |t|] == t then from
    else IndexFrom(s, t, from + 1)
  }

  /** Every occurrence replaced, leftmost first and without overlap. */
  function ReplaceAll(s: string, t: string, r: string): string
    requires t != ""
  {
    var k := Index(s, t);
    if k < 0 then s else s[..k] + r + ReplaceAll(s[k + |t|..], t, r)
  }

  /** The pieces of s between the occurrences that ReplaceAll replaces. */
  function Gaps(s: string, t: string): seq<string>
    requires t != ""
  {
    var k := Index(s, t);
    if k < 0 then [s] else [s[..k]] + Gaps(s[k + |t|..], t)
  }

  function Join(parts: seq<string>, r: string): string
    requires parts != []
  {
    if |parts| == 1 then parts[0] else parts[0] + r + Join(parts[1..], r)
  }

  lemma OccursMatches(s: string, t: string, k: int, i: int)
    requires OccursAt(s, t, k) && 0 <= i < |t|
    ensures s[k + i] == t[i]
  {
    assert s[k..k + |t|][i] == t[i];
  }

  /** Within an occurrence of t, what occurs is what occurs in t. */
  lemma OccursWithin(s: string, t: string, k: int, u: string, i: int)
    requires OccursAt(s, t, k) && 0 <= i <= |t| - |u|
    ensures OccursAt(s, u, k + i) <==> OccursAt(t, u, i)
  {
    assert s[k..k + |t|] == t;
    SliceOfSlice(s, k, k + |t|, i, i + |u|);
  }

  lemma SliceOfSlice(s: string, a: int, b: int, c: int, d: int)
    requires 0 <= a <= b <= |s| && 0 <= c <= d <= b - a
    ensures s[a..b][c..d] == s[a + c..a + d]
  {
    var x, y := s[a..b][c..d], s[a + c..a + d];
    assert forall i :: 0 <= i < d - c ==> x[i] == y[i];
  }

  /** Up to and including the leftmost occurrence there is no other. */
  lemma LeftmostGap(s: string, t: string, k: int)
    requires t != "" && Index(s, t) == k && k >= 0
    ensures s == s[..k] + t + s[k + |t|..]
    ensures forall j :: OccursAt(s[..k] + t, t, j) ==> j == k
    ensures !Contains(s[..k], t)
  {
    var g := s[..k] + t;
    assert s[..k + |t|] == g;
    assert OccursAt(s, g, 0);
    forall j | OccursAt(g, t, j) ensures j == k {
      OccursWithin(s, g, 0, t, j);
    }
    assert OccursAt(s, s[..k], 0);
    forall j ensures !OccursAt(s[..k], t, j) {
      if OccursAt(s[..k], t, j) { OccursWithin(s, s[..k], 0, t, j); }
    }
  }

  /** Every gap is free of t, and so is every gap followed by t up to that t. */
  ghost predicate Leftmost(gaps: seq<string>, t: string)
  {
    && (forall i :: 0 <= i < |gaps| ==> !Contains(gaps[i], t))
    && (forall i, j :: 0 <= i < |gaps| - 1 && OccursAt(gaps[i] + t, t, j) ==> j == |gaps[i]|)
  }

  /** The gaps lie between the leftmost occurrences: joined by t they are the text itself, joined by
      another string they are the replacement. */
  lemma {:induction false} ReplaceJoinsGaps(s: string, t: string, r: string)
    requires t != ""
    ensures Gaps(s, t) != [] && Leftmost(Gaps(s, t), t)
    ensures Join(Gaps(s, t), t) == s
    ensures Join(Gaps(s, t), r) == ReplaceAll(s, t, r)
  {
    var k := Index(s, t);
    if k >= 0 {
      var rest := s[k + |t|..];
      ReplaceJoinsGaps(rest, t, r);
      LeftmostGap(s, t, k);
      LeftmostCons(s[..k], Gaps(rest, t), t);
      assert Gaps(s, t) == [s[..k]] + Gaps(rest, t) && Gaps(s, t)[1..] == Gaps(rest, t);
    } else {
      assert Leftmost([s], t);
    }
  }

  lemma LeftmostCons(gap: string, gaps: seq<string>, t: string)
    requires Leftmost(gaps, t) && !Contains(gap, t)
    requires forall j :: OccursAt(gap + t, t, j) ==> j == |gap|
    ensures Leftmost([gap] + gaps, t)
  {
    var all := [gap] + gaps;
    forall i | 0 <= i < |all| ensures !Contains(all[i], t) {
      assert i > 0 ==> all[i] == gaps[i - 1];
    }
    forall i, j | 0 <= i < |all| - 1 && OccursAt(all[i] + t, t, j) ensures j == |all[i]| {
      assert i > 0 ==> all[i] == gaps[i - 1];
    }
  }

  lemma OccursOne(s: string, c: char, k: int)
    ensures OccursAt(s, [c], k) <==> 0 <= k < |s| && s[k] == c
  {
    if 0 <= k < |s| { assert s[k..k + 1] == [s[k]]; }
  }

  lemma IndexLater(s: string, c: char)
    requires s != "" && s[0] != c
    ensures var k, m := Index(s, [c]), Index(s[1..], [c]); if k >= 0 then k > 0 && m == k - 1 else m < 0
  {
    var k, m := Index(s, [c]), Index(s[1..], [c]);
    OccursOne(s, c, k);
    OccursOne(s, c, m + 1);
    OccursOne(s[1..], c, m);
    OccursOne(s[1..], c, k - 1);
  }

  lemma RegroupFour(a: string, x: string, r: string, y: string)
    ensures (a + x) + r + y == a + (x + r + y)
  {
  }

  lemma ReplaceLater(s: string, c: char, r: string)
    requires s != "" && s[0] != c
    ensures ReplaceAll(s, [c], r) == [s[0]] + ReplaceAll(s[1..], [c], r)
  {
    IndexLater(s, c);
    var k, tail := Index(s, [c]), s[1..];
    assert s == [s[0]] + tail;
    if k >= 0 {
      var before, after := tail[..k - 1], tail[k..];
      assert s[..k] == [s[0]] + before && s[k + 1..] == after;
      RegroupFour([s[0]], before, r, ReplaceAll(after, [c], r));
    }
  }

  /** Replacing one character goes character by character. */
  lemma ReplaceCharacter(s: string, c: char, r: string)
    requires s != ""
    ensures ReplaceAll(s, [c], r) == (if s[0] == c then r else [s[0]]) + ReplaceAll(s[1..], [c], r)
  {
    if s[0] == c {
      OccursOne(s, c, 0);
      assert s[..0] + r == r;
    } else {
      ReplaceLater(s, c, r);
    }
  }
}
