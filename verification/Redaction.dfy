/** Redaction of secrets in what the agent logs and reports. */
module Redaction {
  import opened Text

  const MASK := "*****"

  function Redact(s: string, secret: string): string
  {
    if secret == "" then s else ReplaceAll(s, secret, MASK)
  }

  /** A secret that no mask, with or without its surroundings, can spell. */
  ghost predicate Maskable(secret: string)
    requires secret != ""
  {
    secret[0] != '*' && secret[|secret| - 1] != '*' && !Contains(secret, MASK)
  }

  ghost predicate NeverLeaks(secret: string) { forall s :: !Contains(Redact(s, secret), secret) }

  lemma MaskIsStars(s: string, k: int)
    requires 0 <= k <= |s| - 5
    ensures OccursAt(s, MASK, k) <==> s[k] == s[k + 1] == s[k + 2] == s[k + 3] == s[k + 4] == '*'
  {
    assert s[k..k + 5] == [s[k], s[k + 1], s[k + 2], s[k + 3], s[k + 4]];
  }

  /** An occurrence across a gap, a mask and what follows lies in the gap or in what follows. */
  lemma MaskSeparates(gap: string, rest: string, secret: string, p: int)
    requires secret != "" && Maskable(secret) && OccursAt(gap + MASK + rest, secret, p)
    ensures OccursAt(gap, secret, p) || OccursAt(rest, secret, p - |gap| - 5)
  {
    var out, n, g := gap + MASK + rest, |secret|, |gap|;
    OccursMatches(out, secret, p, 0);
    OccursMatches(out, secret, p, n - 1);
    if p + n <= g {
      assert out[p..p + n] == gap[p..p + n];
    } else if p >= g + 5 {
      assert out[p..p + n] == rest[p - g - 5..p - g - 5 + n];
    } else if p < g && p + n > g + 5 {
      assert out[g..g + 5] == MASK;
      OccursWithin(out, secret, p, MASK, g - p);
    }
  }

  lemma {:induction false} MaskableNeverLeaks(s: string, secret: string)
    requires secret != "" && Maskable(secret)
    ensures !Contains(Redact(s, secret), secret)
    decreases |s|
  {
    var k := Index(s, secret);
    if k >= 0 {
      var gap, rest := s[..k], s[k + |secret|..];
      MaskableNeverLeaks(rest, secret);
      forall p ensures !OccursAt(Redact(s, secret), secret, p) {
        if OccursAt(Redact(s, secret), secret, p) {
          MaskSeparates(gap, Redact(rest, secret), secret, p);
          LeftmostGap(s, secret, k);
        }
      }
    }
  }

  /** A text whose leftmost occurrence is followed by less than the secret has that one masked, and no other. */
  lemma MasksOnce(before: string, secret: string, after: string)
    requires secret != "" && |after| < |secret|
    requires forall j :: 0 <= j < |before| ==> !OccursAt(before + secret + after, secret, j)
    ensures Redact(before + secret + after, secret) == before + MASK + after
  {
    var s := before + secret + after;
    assert OccursAt(s, secret, |before|);
    assert s[..|before|] == before && s[|before| + |secret|..] == after;
    assert Index(s, secret) == |before|;
    assert Index(after, secret) < 0;
    assert ReplaceAll(after, secret, MASK) == after;
  }

  lemma LeadingStarLeaks(secret: string)
    requires secret != "" && secret[0] == '*'
    ensures !NeverLeaks(secret)
  {
    var s := "" + secret + secret[1..];
    MasksOnce("", secret, secret[1..]);
    assert (MASK + secret[1..])[4..4 + |secret|] == secret;
    assert OccursAt(Redact(s, secret), secret, 4);
  }

  lemma TrailingStarLeaks(secret: string)
    requires secret != "" && secret[0] != '*' && secret[|secret| - 1] == '*'
    ensures !NeverLeaks(secret)
  {
    var n := |secret|;
    var before := secret[..n - 1];
    var s := before + secret + "";
    forall j | 0 <= j < n - 1 ensures !OccursAt(s, secret, j) {
      if OccursAt(s, secret, j) {
        OccursMatches(s, secret, j, 0);
        OccursMatches(s, secret, j, n - 1);
      }
    }
    MasksOnce(before, secret, "");
    assert (before + MASK + "")[0..n] == secret;
    assert OccursAt(Redact(s, secret), secret, 0);
  }

  /** A copy of the secret starting in the secret's own prefix would put a mask where that prefix has none. */
  lemma EarlierCopy(secret: string, k: int, j: int)
    requires 0 <= j < k && OccursAt(secret, MASK, k)
    requires OccursAt(secret[..k] + secret + secret[k + 5..], secret, j)
    ensures OccursAt(secret, MASK, j) || secret[k - 1] == '*'
  {
    var s := secret[..k] + secret + secret[k + 5..];
    assert s[k..k + |secret|] == secret;
    assert OccursAt(s, secret, k);
    OccursWithin(s, secret, j, MASK, k);
    if j + 5 <= k {
      OccursWithin(s, secret, k, MASK, j);
    } else {
      MaskIsStars(s, j + k);
      OccursMatches(s, secret, k, k - 1);
    }
  }

  lemma BeforeFirstMask(secret: string, k: int)
    requires secret != "" && secret[0] != '*' && k == Index(secret, MASK) && k >= 0
    ensures k > 0 && secret[k - 1] != '*'
  {
    MaskIsStars(secret, k);
    if k > 0 && secret[k - 1] == '*' { MaskIsStars(secret, k - 1); }
  }

  lemma MaskedInner(secret: string, k: int)
    requires secret != "" && secret[0] != '*' && k == Index(secret, MASK) && k >= 0
    ensures Redact(secret[..k] + secret + secret[k + 5..], secret) == secret
  {
    var a, b := secret[..k], secret[k + 5..];
    BeforeFirstMask(secret, k);
    forall j | 0 <= j < k ensures !OccursAt(a + secret + b, secret, j) {
      if OccursAt(a + secret + b, secret, j) { EarlierCopy(secret, k, j); }
    }
    MasksOnce(a, secret, b);
    assert secret[k..k + 5] == MASK;
    assert secret == a + MASK + b;
  }

  lemma InnerMaskLeaks(secret: string)
    requires secret != "" && secret[0] != '*' && Contains(secret, MASK)
    ensures !NeverLeaks(secret)
  {
    var k := Index(secret, MASK);
    MaskedInner(secret, k);
    assert OccursAt(secret, secret, 0);
    assert Contains(Redact(secret[..k] + secret + secret[k + 5..], secret), secret);
  }

  /** The secret never survives, in any text, exactly when it neither starts nor ends with a star
      and has no mask inside. */
  lemma NeverLeaksExactly(secret: string)
    requires secret != ""
    ensures NeverLeaks(secret) <==> Maskable(secret)
  {
    if Maskable(secret) {
      forall s ensures !Contains(Redact(s, secret), secret) { MaskableNeverLeaks(s, secret); }
    } else if secret[0] == '*' {
      LeadingStarLeaks(secret);
    } else if secret[|secret| - 1] == '*' {
      TrailingStarLeaks(secret);
    } else {
      InnerMaskLeaks(secret);
    }
  }

  /** A secret without stars never survives, and the output is the text's unmatched gaps joined by the mask. */
  lemma StarlessIsRemoved(s: string, secret: string)
    requires secret != "" && '*' !in secret
    ensures !Contains(Redact(s, secret), secret)
    ensures Gaps(s, secret) != [] && Leftmost(Gaps(s, secret), secret) && Join(Gaps(s, secret), secret) == s
    ensures Redact(s, secret) == Join(Gaps(s, secret), MASK)
  {
    forall k ensures !OccursAt(secret, MASK, k) {
      if 0 <= k <= |secret| - 5 { MaskIsStars(secret, k); }
    }
    MaskableNeverLeaks(s, secret);
    ReplaceJoinsGaps(s, secret, MASK);
  }

  // ---- in terms of the texts alone ----

  lemma OccursSplits(s: string, t: string, a: string, b: string)
    requires s == a + t + b
    ensures OccursAt(s, t, |a|)
  {
    assert s[|a|..|a| + |t|] == t;
  }

  lemma SplitOccurs(s: string, t: string, k: int)
    requires OccursAt(s, t, k)
    ensures s == s[..k] + t + s[k + |t|..]
  {
  }

  /** No text contains the secret any more, wherever it stood. */
  lemma NowhereInOutput(s: string, secret: string, a: string, b: string)
    requires secret != "" && secret[0] != '*' && secret[|secret| - 1] != '*'
    requires forall x, y :: secret != x + "*****" + y
    ensures Redact(s, secret) != a + secret + b
  {
    forall k ensures !OccursAt(secret, MASK, k) {
      if OccursAt(secret, MASK, k) { SplitOccurs(secret, MASK, k); }
    }
    MaskableNeverLeaks(s, secret);
    if Redact(s, secret) == a + secret + b { OccursSplits(Redact(s, secret), secret, a, b); }
  }

  /** A text without the secret stays as it is; so does every text when there is no secret. */
  lemma NothingToMask(s: string, secret: string)
    requires secret == "" || forall a, b :: s != a + secret + b
    ensures Redact(s, secret) == s
  {
    if secret != "" {
      var k := Index(s, secret);
      if k >= 0 { SplitOccurs(s, secret, k); }
    }
  }

  lemma EarlierSplit(before: string, secret: string, after: string, k: int)
    requires k < |before| && OccursAt(before + secret + after, secret, k)
    ensures before + secret == (before + secret + after)[..k] + secret + (before + secret)[k + |secret|..]
  {
    var s, g := before + secret + after, before + secret;
    assert g[..k + |secret|] == s[..k + |secret|] == s[..k] + secret;
  }

  /** The leftmost occurrence becomes five stars, and the text goes on after it. */
  lemma LeftmostMasked(secret: string, before: string, after: string)
    requires secret != "" && forall x, y :: before + secret == x + secret + y ==> x == before
    ensures Redact(before + secret + after, secret) == before + "*****" + Redact(after, secret)
  {
    var s := before + secret + after;
    OccursSplits(s, secret, before, after);
    var k := Index(s, secret);
    assert s[..k + |secret|] == s[..k] + secret;
    if k < |before| { EarlierSplit(before, secret, after, k); }
    assert s[..k] == before && s[k + |secret|..] == after;
  }

  // ---- command lines ----

  predicate SensitiveFlag(isSensitive: string -> bool, arg: string)
  {
    arg != "" && arg[0] == '-' && isSensitive(arg)
  }

  /** How many sensitive flags stand directly before position i, one after the other. */
  function FlagsBefore(isSensitive: string -> bool, args: seq<string>, i: nat): nat
    requires i <= |args|
  {
    if i > 0 && SensitiveFlag(isSensitive, args[i - 1]) then 1 + FlagsBefore(isSensitive, args, i - 1) else 0
  }

  predicate MaskedAt(isSensitive: string -> bool, args: seq<string>, i: nat)
    requires i <= |args|
  {
    FlagsBefore(isSensitive, args, i) % 2 == 1
  }

  lemma FlagsGoOn(isSensitive: string -> bool, args: seq<string>, i: nat)
    requires i < |args|
    ensures !MaskedAt(isSensitive, args, 0)
    ensures MaskedAt(isSensitive, args, i + 1) <==>
      args[i] != "" && args[i][0] == '-' && isSensitive(args[i]) && !MaskedAt(isSensitive, args, i)
  {
  }

  /** An argument is masked exactly after an odd run of sensitive flags, since a masked flag masks nothing itself. */
  method Args(isSensitive: string -> bool, args: seq<string>) returns (out: seq<string>)
    ensures |out| == |args|
    ensures forall i :: 0 <= i < |args| ==>
      out[i] == if MaskedAt(isSensitive, args, i) then MASK else args[i]
  {
    out := [];
    var redactNext := false;
    for i := 0 to |args|
      invariant |out| == i
      invariant redactNext == MaskedAt(isSensitive, args, i)
      invariant forall j :: 0 <= j < i ==> out[j] == if MaskedAt(isSensitive, args, j) then MASK else args[j]
    {
      FlagsGoOn(isSensitive, args, i);
      if redactNext {
        out := out + [MASK];
        redactNext := false;
        continue;
      }
      out := out + [args[i]];
      if args[i] != "" && args[i][0] == '-' && isSensitive(args[i]) {
        redactNext := true;
      }
    }
  }
}
