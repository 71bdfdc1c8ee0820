/**
  Values of the Jaro-Winkler similarity, told from the strings alone.
 */
module SimilarityValues {
  import opened Basics
  import opened Matching
  import opened JaroWinkler

  // ---- Which characters can match ----

  /** Positions at which equal characters match: the same one, or two whose
      distance is less than half the length of the longer string. */
  predicate IsNear(s: string, t: string, i: nat, j: nat) {
    var gap := if i < j then j - i else i - j;
    i == j || 2 * (gap + 1) <= |s| || 2 * (gap + 1) <= |t|
  }

  lemma NearIsInWindow(s: string, t: string, i: nat, j: nat)
    requires i < |s| && j < |t| && s[i] == t[j]
    ensures IsNear(s, t, i, j) <==> Compatible(s, t, MatchDistance(s, t), i, j)
  {
  }

  lemma {:induction false} EmptyWithoutPairs(f: Partners)
    requires forall i :: 0 <= i < |f| ==> f[i].None?
    ensures Size(f) == 0
  {
    if |f| == 0 {
    } else {
      EmptyWithoutPairs(f[..|f| - 1]);
    }
  }

  lemma {:induction false} PairsCount(f: Partners, i: nat)
    requires i < |f| && f[i].Some?
    ensures Size(f) > 0
  {
    if i < |f| - 1 {
      PairsCount(f[..|f| - 1], i);
    } else {
    }
  }

  /** Different strings have similarity zero exactly when no two equal
      characters of them stand near each other. */
  lemma ZeroExactlyWhen(s: string, t: string)
    requires s != t
    ensures Similarity(s, t) == 0.0 <==>
      forall i, j :: 0 <= i < |s| && 0 <= j < |t| && s[i] == t[j] ==> !IsNear(s, t, i, j)
  {
    if |s| > 0 && |t| > 0 {
      var d, f := MatchDistance(s, t), Matched(s, t);
      SameNumberOfFlags(s, t);
      GreedyIsStable(s, t, d, |s|);
      if i, j :| 0 <= i < |s| && 0 <= j < |t| && s[i] == t[j] && IsNear(s, t, i, j) {
        NearIsInWindow(s, t, i, j);
        if f[i].None? {
          var k :| 0 <= k <= i && f[k] == Some(j);
          PairsCount(f, k);
        } else {
          PairsCount(f, i);
        }
        PositiveWithPairs(s, t);
      } else {
        forall i | 0 <= i < |f| ensures f[i].None? {
          if f[i].Some? {
            assert Compatible(s, t, d, i, f[i].value);
            NearIsInWindow(s, t, i, f[i].value);
          }
        }
        EmptyWithoutPairs(f);
      }
    }
  }

  lemma PositiveWithPairs(s: string, t: string)
    requires |s| > 0 && |t| > 0 && Size(Matched(s, t)) > 0
    ensures MainPath(s, t) > 0.0
  {
    var f := Matched(s, t);
    var a, b := Picked(s, LeftFlags(f), |s|), Picked(t, RightFlags(f, |t|), |t|);
    SameNumberOfFlags(s, t);
    JaroRange(|s|, |t|, |a|, Hamming(a, b));
    WinklerRange(Jaro(|s|, |t|, |a|, Hamming(a, b)), CommonPrefix(s, t, 0));
  }

  // ---- The score of a known number of matches and transpositions ----

  /** The common prefix, as far as it counts, has length `k`. */
  predicate AgreeFor(s: string, t: string, k: nat) {
    && k <= 4 && k <= |s| && k <= |t| && s[..k] == t[..k]
    && (k == 4 || k == |s| || k == |t| || s[k] != t[k])
  }

  lemma {:induction false} PrefixIs(s: string, t: string, k: nat, i: nat)
    requires AgreeFor(s, t, k) && i <= k
    ensures CommonPrefix(s, t, i) == k
    decreases k - i
  {
    if i < k {
      assert s[i] == s[..k][i] == t[..k][i];
      PrefixIs(s, t, k, i + 1);
    } else {
    }
  }

  /** What a score misses to one, in parts of which there are `parts`. */
  function Missing(parts: nat, score: real): real {
    parts as real * (1.0 - score)
  }

  lemma MissingScales(m: nat, parts: nat, score: real)
    ensures Missing(m * parts, score) == m as real * Missing(parts, score)
  {
    assert (m * parts) as real == m as real * parts as real;
  }

  /** What is missing to one shrinks by a tenth for each common character. */
  lemma GapShrinks(parts: nat, jaro: real, k: nat, missing: nat)
    requires k <= 4 && Missing(parts, jaro) == missing as real
    ensures Missing(10 * parts, Winkler(jaro, k)) == ((10 - k) * missing) as real
  {
    var n, gap, c := parts as real, 1.0 - jaro, 1.0 - k as real * 0.1;
    assert 1.0 - Winkler(jaro, k) == gap - k as real * 0.1 * gap;
    assert gap - k as real * 0.1 * gap == c * gap;
    assert n * (c * gap) == c * (n * gap);
    MissingScales(10, parts, Winkler(jaro, k));
    assert ((10 - k) * missing) as real == (10 - k) as real * missing as real;
  }

  lemma Quotient(a: real, b: real)
    requires b > 0.0
    ensures a / b * b == a && (a == b ==> a / b == 1.0)
  {
  }

  lemma RearrangedGap(n: nat, h: nat)
    requires n > 0
    ensures Missing(6 * n, Jaro(n, n, n, h)) == h as real
  {
    var x, y := n as real, n as real - h as real / 2.0;
    Quotient(x, x);
    Quotient(y, x);
    var q := y / x;
    assert Jaro(n, n, n, h) == (2.0 + q) / 3.0;
    assert 6.0 * x * (1.0 - (2.0 + q) / 3.0) == 2.0 * x - 2.0 * (q * x);
  }

  lemma ExtensionGap(a: nat, b: nat)
    requires a > 0
    ensures Missing(3 * (a + b), Jaro(a, a + b, a, 0)) == b as real
  {
    var x, n := a as real, (a + b) as real;
    Quotient(x, x);
    Quotient(x, n);
    var q := x / n;
    assert Jaro(a, a + b, a, 0) == (2.0 + q) / 3.0;
    assert 3.0 * n * (1.0 - (2.0 + q) / 3.0) == n - q * n;
  }

  lemma RearrangedFormula(n: nat, h: nat, k: nat)
    requires n > 0 && k <= 4
    ensures Missing(60 * n, Winkler(Jaro(n, n, n, h), k)) == ((10 - k) * h) as real
  {
    RearrangedGap(n, h);
    GapShrinks(6 * n, Jaro(n, n, n, h), k, h);
  }

  lemma ExtensionFormula(a: nat, b: nat, k: nat)
    requires a > 0 && k <= 4
    ensures Missing(30 * (a + b), Winkler(Jaro(a, a + b, a, 0), k)) == ((10 - k) * b) as real
  {
    ExtensionGap(a, b);
    GapShrinks(3 * (a + b), Jaro(a, a + b, a, 0), k, b);
  }

  // ---- Rearrangements ----

  /** `t` holds the characters of `s`, none moved far: that at `i` to `to[i]`. */
  ghost predicate IsRearranged(s: string, t: string, to: seq<nat>) {
    && |to| == |s| == |t|
    && (forall i :: 0 <= i < |s| ==> to[i] < |t| && s[i] == t[to[i]] && IsNear(s, t, i, to[i]))
    && (forall i, j :: 0 <= i < j < |s| ==> to[i] != to[j])
  }

  function Differences(s: string, t: string): set<nat> {
    set i | 0 <= i < |s| && i < |t| && s[i] != t[i]
  }

  lemma {:induction false} HammingIsDifferences(s: string, t: string)
    requires |s| == |t|
    ensures Hamming(s, t) == |Differences(s, t)|
  {
    var n := |s| - 1;
    if |s| == 0 {
      assert Differences(s, t) == {};
    } else {
      HammingIsDifferences(s[..n], t[..n]);
      assert Differences(s, t) == Differences(s[..n], t[..n]) + if s[n] != t[n] then {n} else {};
    }
  }

  lemma FullyPicked(s: string, t: string, to: seq<nat>)
    requires IsRearranged(s, t, to)
    ensures var f := Matched(s, t);
      Picked(s, LeftFlags(f), |s|) == s && Picked(t, RightFlags(f, |t|), |t|) == t
  {
    var f, all := Matched(s, t), seq(|s|, i requires 0 <= i < |s| => Some(to[i]));
    forall i | 0 <= i < |s| ensures Compatible(s, t, MatchDistance(s, t), i, all[i].value) {
      NearIsInWindow(s, t, i, to[i]);
    }
    FullSize(all);
    GreedyIsMaximum(s, t, all);
    SameNumberOfFlags(s, t);
    AllPicked(s, LeftFlags(f), |s|);
    AllPicked(t, RightFlags(f, |t|), |t|);
    assert s[..|s|] == s && t[..|t|] == t;
  }

  lemma RearrangedScore(s: string, t: string, to: seq<nat>, k: nat)
    requires s != t && IsRearranged(s, t, to) && AgreeFor(s, t, k)
    ensures Similarity(s, t) == Winkler(Jaro(|s|, |s|, |s|, |Differences(s, t)|), k)
  {
    FullyPicked(s, t, to);
    HammingIsDifferences(s, t);
    PrefixIs(s, t, k, 0);
    SameNumberOfFlags(s, t);
  }

  /** A rearrangement of n characters that differs in h places, after k common
      characters, misses (10 - k) * h / (60 * n). */
  lemma RearrangedValue(s: string, t: string, to: seq<nat>, k: nat)
    requires s != "" && IsRearranged(s, t, to) && AgreeFor(s, t, k)
    ensures Missing(60 * |s|, Similarity(s, t)) == ((10 - k) * |Differences(s, t)|) as real
  {
    if s == t {
      assert Differences(s, t) == {};
    } else {
      RearrangedScore(s, t, to, k);
      RearrangedFormula(|s|, |Differences(s, t)|, k);
    }
  }

  /** Two different neighbours swapped behind the first four characters: what
      is missing is 1 / (5 * n). */
  lemma SwappedNeighbours(s: string, p: nat)
    requires 4 <= p < |s| - 1 && s[p] != s[p + 1]
    ensures Missing(5 * |s|, Similarity(s, s[p := s[p + 1]][p + 1 := s[p]])) == 1.0
  {
    var t := s[p := s[p + 1]][p + 1 := s[p]];
    var to := seq(|s|, i requires 0 <= i < |s| => if i == p then p + 1 else if i == p + 1 then p else i);
    assert IsRearranged(s, t, to);
    assert Differences(s, t) == {p, p + 1};
    assert s[..4] == t[..4];
    RearrangedValue(s, t, to, 4);
    MissingScales(12, 5 * |s|, Similarity(s, t));
  }

  // ---- A string and its extension ----

  lemma {:induction false} ScanOfExtension(s: string, x: string, d: nat, n: nat)
    requires n <= |s|
    ensures Greedy(s, s + x, d, n) == seq(n, i requires 0 <= i < n => Some(i))
  {
    if n == 0 {
    } else {
      ScanOfExtension(s, x, d, n - 1);
      var f := Greedy(s, s + x, d, n - 1);
      FirstFreeIsFirst(s, s + x, d, f, n - 1, WindowStart(d, n - 1));
      forall j: nat | j < n - 1 ensures Some(j) in f {
        assert f[j] == Some(j);
      }
      assert FirstFree(s, s + x, d, f, n - 1, WindowStart(d, n - 1)) == Some(n - 1);
    }
  }

  lemma {:induction false} PickedExtension(s: string, x: string, flags: seq<bool>, n: nat)
    requires n <= |s + x| == |flags|
    requires forall i :: 0 <= i < |flags| ==> flags[i] == (i < |s|)
    ensures Picked(s + x, flags, n) == if n < |s| then s[..n] else s
  {
    if n == 0 {
    } else {
      PickedExtension(s, x, flags, n - 1);
    }
  }

  lemma ExtensionIsFullyMatched(s: string, x: string)
    ensures var t, f := s + x, Matched(s, s + x);
      Picked(s, LeftFlags(f), |s|) == s && Picked(t, RightFlags(f, |t|), |t|) == s
  {
    var t, f := s + x, Matched(s, s + x);
    ScanOfExtension(s, x, MatchDistance(s, t), |s|);
    forall j | 0 <= j < |t| ensures RightFlags(f, |t|)[j] == (j < |s|) {
      assert j < |s| ==> f[j] == Some(j);
    }
    PickedExtension(s, x, RightFlags(f, |t|), |t|);
    PickedExtension(s, "", LeftFlags(f), |s|);
    assert s + "" == s;
  }

  /** A string extended by `x` misses the share of `x`, times 1 / 3 less a
      tenth of that for each of the first four characters. */
  lemma ExtendedValue(s: string, x: string, k: nat)
    requires s != "" && x != "" && k == if |s| < 4 then |s| else 4
    ensures Missing(30 * |s + x|, Similarity(s, s + x)) == ((10 - k) * |x|) as real
  {
    var t := s + x;
    ExtensionIsFullyMatched(s, x);
    HammingZero(s, s);
    assert t[..k] == s[..k];
    PrefixIs(s, t, k, 0);
    SameNumberOfFlags(s, t);
    assert Similarity(s, t) == Winkler(Jaro(|s|, |t|, |s|, 0), k);
    ExtensionFormula(|s|, |x|, k);
  }

  /** Behind at least four characters what is missing is |x| / (5 * |s + x|). */
  lemma LongExtension(s: string, x: string)
    requires |s| >= 4 && x != ""
    ensures Missing(5 * |s + x|, Similarity(s, s + x)) == |x| as real
  {
    ExtendedValue(s, x, 4);
    MissingScales(6, 5 * |s + x|, Similarity(s, s + x));
  }
}
