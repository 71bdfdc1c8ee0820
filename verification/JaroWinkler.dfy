/**
  The resolver's Jaro-Winkler similarity: the score of the matched characters
  and its boost for a common prefix.
 */
module JaroWinkler {
  import opened Matching

  /** The length of the common prefix, at most four. */
  function CommonPrefix(s: string, t: string, i: nat): (r: nat)
    requires i <= 4
    ensures i <= r <= 4
    decreases 4 - i
  {
    if i < 4 && i < |s| && i < |t| && s[i] == t[i] then CommonPrefix(s, t, i + 1) else i
  }

  const PREFIX_SCALE: real := 0.1

  function Winkler(jaro: real, prefix: nat): real {
    jaro + prefix as real * PREFIX_SCALE * (1.0 - jaro)
  }

  function Jaro(len1: nat, len2: nat, matches: nat, transpositions: nat): real
    requires len1 > 0 && len2 > 0 && matches > 0
  {
    (matches as real / len1 as real + matches as real / len2 as real
     + (matches as real - transpositions as real / 2.0) / matches as real) / 3.0
  }

  /** What the program computes after its two early returns. */
  function MainPath(s: string, t: string): real
    requires |s| > 0 && |t| > 0
  {
    var f := Matched(s, t);
    var a := Picked(s, LeftFlags(f), |s|);
    var b := Picked(t, RightFlags(f, |t|), |t|);
    SameNumberOfFlags(s, t);
    if |a| == 0 then 0.0
    else Winkler(Jaro(|s|, |t|, |a|, Hamming(a, b)), CommonPrefix(s, t, 0))
  }

  function Similarity(s: string, t: string): real {
    if s == t then 1.0
    else if |s| == 0 || |t| == 0 then 0.0
    else MainPath(s, t)
  }

  // ---- Symmetry ----

  lemma CommonPrefixSwap(s: string, t: string, i: nat)
    requires i <= 4
    ensures CommonPrefix(s, t, i) == CommonPrefix(t, s, i)
    decreases 4 - i
  {
  }

  /** The similarity does not depend on the order of its arguments. */
  lemma SimilarityIsSymmetric(s: string, t: string)
    ensures Similarity(s, t) == Similarity(t, s)
  {
    if s != t && |s| > 0 && |t| > 0 {
      FlagsSwap(s, t);
      var f := Matched(s, t);
      SameNumberOfFlags(s, t);
      HammingSwap(Picked(s, LeftFlags(f), |s|), Picked(t, RightFlags(f, |t|), |t|));
      CommonPrefixSwap(s, t, 0);
    }
  }

  // ---- Range, and when the similarity is one ----

  lemma RatioRange(x: real, y: real)
    requires 0.0 <= x <= y && y > 0.0
    ensures 0.0 <= x / y <= 1.0
    ensures x / y == 1.0 <==> x == y
    ensures x > 0.0 ==> x / y > 0.0
  {
    if x < y {
      RatioBelowOne(x, y);
    }
  }

  lemma RatioBelowOne(x: real, y: real)
    requires 0.0 <= x < y
    ensures 0.0 <= x / y < 1.0
  {
  }

  lemma JaroRange(len1: nat, len2: nat, m: nat, h: nat)
    requires 0 < m <= len1 && m <= len2 && h <= m
    ensures 0.0 < Jaro(len1, len2, m, h) <= 1.0
    ensures Jaro(len1, len2, m, h) == 1.0 <==> len1 == m == len2 && h == 0
  {
    RatioRange(m as real, len1 as real);
    RatioRange(m as real, len2 as real);
    RatioRange(m as real - h as real / 2.0, m as real);
  }

  lemma WinklerRange(jaro: real, prefix: nat)
    requires 0.0 <= jaro <= 1.0 && prefix <= 4
    ensures jaro <= Winkler(jaro, prefix) <= 1.0
    ensures Winkler(jaro, prefix) == 1.0 <==> jaro == 1.0
  {
    var gap := 1.0 - jaro;
    var boost := prefix as real * PREFIX_SCALE;
    ScaledGap(boost, gap);
  }

  lemma ScaledGap(boost: real, gap: real)
    requires 0.0 <= boost <= 0.4 && 0.0 <= gap
    ensures 0.0 <= boost * gap <= 0.4 * gap
  {
  }

  /** The main path lies in [0, 1] and is one exactly for equal strings. */
  lemma MainPathRange(s: string, t: string)
    requires |s| > 0 && |t| > 0
    ensures 0.0 <= MainPath(s, t) <= 1.0
    ensures MainPath(s, t) == 1.0 <==> s == t
  {
    var f := Matched(s, t);
    var a := Picked(s, LeftFlags(f), |s|);
    var b := Picked(t, RightFlags(f, |t|), |t|);
    SameNumberOfFlags(s, t);
    if s == t {
      EqualStringsMatchFully(s);
    }
    if |a| > 0 {
      var h := Hamming(a, b);
      JaroRange(|s|, |t|, |a|, h);
      WinklerRange(Jaro(|s|, |t|, |a|, h), CommonPrefix(s, t, 0));
      HammingZero(a, b);
      if |a| == |s| {
        AllPicked(s, LeftFlags(f), |s|);
      }
      if |b| == |t| {
        AllPicked(t, RightFlags(f, |t|), |t|);
      }
    }
  }

  /** The similarity lies in [0, 1] and is one exactly for equal strings. */
  lemma SimilarityRange(s: string, t: string)
    ensures 0.0 <= Similarity(s, t) <= 1.0
    ensures Similarity(s, t) == 1.0 <==> s == t
  {
    if s != t && |s| > 0 && |t| > 0 {
      MainPathRange(s, t);
    }
  }

  /** The early return for equal strings agrees with the main path. */
  lemma EarlyReturnAgrees(s: string)
    requires |s| > 0
    ensures MainPath(s, s) == Similarity(s, s)
  {
    MainPathRange(s, s);
  }

  // ---- The program ----

  /** The resolver's `_jaro_winkler`. */
  method Compute(s: string, t: string) returns (score: real)
    ensures score == Similarity(s, t)
  {
    if s == t {
      return 1.0;
    }
    if |s| == 0 || |t| == 0 {
      return 0.0;
    }
    var left, right, matches := FindMatches(s, t, MatchDistance(s, t));
    SameNumberOfFlags(s, t);
    if matches == 0 {
      return 0.0;
    }
    var transpositions := CountTranspositions(s, t, left, right);
    var jaro := Jaro(|s|, |t|, matches, transpositions);
    var prefix := 0;
    while prefix < 4 && prefix < |s| && prefix < |t| && s[prefix] == t[prefix]
      invariant prefix <= 4
      invariant CommonPrefix(s, t, 0) == CommonPrefix(s, t, prefix)
    {
      prefix := prefix + 1;
    }
    score := Winkler(jaro, prefix);
  }
}
