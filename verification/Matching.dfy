/**
  The character matching inside the resolver's Jaro-Winkler similarity.
 */
module Matching {
  import opened Basics

  // The program scans the first string and gives each character the first free
  // equal character of the second string inside a window.  The scan treats its
  // two arguments differently, yet the result does not depend on their order:
  // the greedy matching is the only STABLE matching of a market in which both
  // sides prefer small positions, and stability does not mention the order.

  type Partners = seq<Option<nat>>

  // ---- Definitions ----

  /** How far apart two equal characters may stand and still match. */
  function MatchDistance(s: string, t: string): nat {
    var longer := if |s| < |t| then |t| else |s|;
    if longer / 2 < 1 then 0 else longer / 2 - 1
  }

  predicate Compatible(s: string, t: string, d: nat, i: int, j: int) {
    0 <= i < |s| && 0 <= j < |t| && s[i] == t[j] && i <= j + d && j <= i + d
  }

  /** A pairing of compatible positions that uses each position at most once;
      `f[i]` is the position of `t` paired with position `i` of `s`. */
  ghost predicate IsMatching(s: string, t: string, d: nat, f: Partners) {
    && |f| <= |s|
    && (forall i :: 0 <= i < |f| && f[i].Some? ==> Compatible(s, t, d, i, f[i].value))
    && (forall i, k :: 0 <= i < k < |f| && f[i].Some? ==> f[i] != f[k])
  }

  /** No compatible pair would both rather have each other than what they got,
      where every position prefers small positions of the other string. */
  ghost predicate IsStable(s: string, t: string, d: nat, f: Partners) {
    forall i, j :: 0 <= i < |f| && Compatible(s, t, d, i, j) ==>
      (f[i].Some? && f[i].value <= j) || (exists k :: 0 <= k <= i && f[k] == Some(j))
  }

  function WindowStart(d: nat, i: nat): nat {
    if i < d then 0 else i - d
  }

  /** The first position of `t` from `j` on that is in the window of `i`, holds
      the same character and is not taken in `f`. */
  function FirstFree(s: string, t: string, d: nat, f: Partners, i: nat, j: nat): Option<nat>
    requires i < |s|
    decreases |t| - j
  {
    if j >= |t| || j > i + d then None
    else if s[i] == t[j] && Some(j) !in f then Some(j)
    else FirstFree(s, t, d, f, i, j + 1)
  }

  /** The scan of one more character of `s`. */
  function Extended(s: string, t: string, d: nat, f: Partners): Partners
    requires |f| < |s|
  {
    f + [FirstFree(s, t, d, f, |f|, WindowStart(d, |f|))]
  }

  /** The greedy matching of the first `n` characters of `s`. */
  function Greedy(s: string, t: string, d: nat, n: nat): (f: Partners)
    requires n <= |s|
    ensures |f| == n
  {
    if n == 0 then [] else Extended(s, t, d, Greedy(s, t, d, n - 1))
  }

  function Matched(s: string, t: string): Partners {
    Greedy(s, t, MatchDistance(s, t), |s|)
  }

  function LeftFlags(f: Partners): seq<bool> {
    seq(|f|, i requires 0 <= i < |f| => f[i].Some?)
  }

  function RightFlags(f: Partners, n: nat): seq<bool> {
    seq(n, j => Some(j) in f)
  }

  function IsPaired(x: Option<nat>): nat {
    if x.Some? then 1 else 0
  }

  /** The number of pairs. */
  function Size(f: Partners): nat {
    Sum(f, IsPaired)
  }

  /** The flagged characters among the first `n` of a string, in order. */
  function Picked(s: string, flags: seq<bool>, n: nat): (r: string)
    requires n <= |s| && |s| == |flags|
    ensures |r| <= n
  {
    if n == 0 then ""
    else if flags[n - 1] then Picked(s, flags, n - 1) + [s[n - 1]]
    else Picked(s, flags, n - 1)
  }

  /** The number of places in which two strings of equal length differ. */
  function Hamming(a: string, b: string): (r: nat)
    requires |a| == |b|
    ensures r <= |a|
  {
    if |a| == 0 then 0
    else Hamming(a[..|a| - 1], b[..|b| - 1]) + (if a[|a| - 1] != b[|b| - 1] then 1 else 0)
  }

  // ---- The greedy matching is a stable matching ----

  lemma FirstFreeIsFirst(s: string, t: string, d: nat, f: Partners, i: nat, j: nat)
    requires i < |s|
    ensures var r := FirstFree(s, t, d, f, i, j);
      && (r.Some? ==> j <= r.value < |t| && r.value <= i + d && s[i] == t[r.value] && r !in f)
      && (forall k :: j <= k < |t| && k <= i + d && s[i] == t[k] && Some(k) !in f ==> r.Some? && r.value <= k)
    decreases |t| - j
  {
  }

  lemma OneMoreMatching(s: string, t: string, d: nat, f: Partners)
    requires |f| < |s| && IsMatching(s, t, d, f)
    ensures IsMatching(s, t, d, Extended(s, t, d, f))
  {
    FirstFreeIsFirst(s, t, d, f, |f|, WindowStart(d, |f|));
  }

  lemma OneMoreStable(s: string, t: string, d: nat, f: Partners)
    requires |f| < |s| && IsStable(s, t, d, f)
    ensures IsStable(s, t, d, Extended(s, t, d, f))
  {
    var n := |f|;
    var g := Extended(s, t, d, f);
    FirstFreeIsFirst(s, t, d, f, n, WindowStart(d, n));
    forall i, j | 0 <= i < |g| && Compatible(s, t, d, i, j)
      ensures (g[i].Some? && g[i].value <= j) || (exists k :: 0 <= k <= i && g[k] == Some(j))
    {
      if i < n {
        assert g[i] == f[i];
        if !(f[i].Some? && f[i].value <= j) {
          var k :| 0 <= k <= i && f[k] == Some(j);
          assert g[k] == Some(j);
        }
      } else if Some(j) in f {
        var k :| 0 <= k < n && f[k] == Some(j);
        assert g[k] == Some(j);
      }
    }
  }

  lemma {:induction false} GreedyIsStable(s: string, t: string, d: nat, n: nat)
    requires n <= |s|
    ensures IsMatching(s, t, d, Greedy(s, t, d, n)) && IsStable(s, t, d, Greedy(s, t, d, n))
  {
    if n == 0 {
    } else {
      GreedyIsStable(s, t, d, n - 1);
      OneMoreMatching(s, t, d, Greedy(s, t, d, n - 1));
      OneMoreStable(s, t, d, Greedy(s, t, d, n - 1));
    }
  }

  // ---- Symmetry ----

  /** `f` and `g` say the same about every row of `f` below `n`. */
  ghost predicate AgreeBelow(f: Partners, g: Partners, n: nat) {
    forall i, j :: 0 <= i < n && i < |f| && 0 <= j < |g| ==> (f[i] == Some(j) <==> g[j] == Some(i))
  }

  /** If `i` got `j`, then `i` appears in `g` at no position before `j`. */
  lemma NothingBefore(s: string, t: string, d: nat, f: Partners, g: Partners, i: nat, j: nat, k: nat)
    requires |f| == |s| && IsStable(s, t, d, f)
    requires |g| == |t| && IsMatching(t, s, d, g)
    requires i < |s| && j < |t| && AgreeBelow(f, g, i) && f[i] == Some(j)
    requires k <= j && g[k] == Some(i)
    ensures k == j
  {
    assert Compatible(t, s, d, k, i);
    assert Compatible(s, t, d, i, k);
  }

  lemma AgreeOneWay(s: string, t: string, d: nat, f: Partners, g: Partners, i: nat, j: nat)
    requires |f| == |s| && IsMatching(s, t, d, f) && IsStable(s, t, d, f)
    requires |g| == |t| && IsMatching(t, s, d, g) && IsStable(t, s, d, g)
    requires i < |s| && j < |t| && AgreeBelow(f, g, i) && f[i] == Some(j)
    ensures g[j] == Some(i)
  {
    assert Compatible(t, s, d, j, i);
    if !(g[j].Some? && g[j].value <= i) {
      var k :| 0 <= k <= j && g[k] == Some(i);
      NothingBefore(s, t, d, f, g, i, j, k);
    }
  }

  lemma AgreeOtherWay(s: string, t: string, d: nat, f: Partners, g: Partners, i: nat, j: nat)
    requires |f| == |s| && IsMatching(s, t, d, f) && IsStable(s, t, d, f)
    requires |g| == |t| && IsMatching(t, s, d, g) && IsStable(t, s, d, g)
    requires i < |s| && j < |t| && AgreeBelow(f, g, i) && g[j] == Some(i)
    ensures f[i] == Some(j)
  {
    assert Compatible(s, t, d, i, j);
    if f[i].Some? && f[i].value <= j {
      AgreeOneWay(s, t, d, f, g, i, f[i].value);
    }
  }

  /** A stable matching of (s, t) and one of (t, s) pair the same positions. */
  lemma {:induction false} StableMatchingsAgree(s: string, t: string, d: nat, f: Partners, g: Partners, n: nat)
    requires |f| == |s| && IsMatching(s, t, d, f) && IsStable(s, t, d, f)
    requires |g| == |t| && IsMatching(t, s, d, g) && IsStable(t, s, d, g)
    requires n <= |s|
    ensures AgreeBelow(f, g, n)
  {
    if n == 0 {
    } else {
      var i := n - 1;
      StableMatchingsAgree(s, t, d, f, g, i);
      forall j | 0 <= j < |t| ensures f[i] == Some(j) <==> g[j] == Some(i) {
        if f[i] == Some(j) {
          AgreeOneWay(s, t, d, f, g, i, j);
        }
        if g[j] == Some(i) {
          AgreeOtherWay(s, t, d, f, g, i, j);
        }
      }
    }
  }

  /** Swapping the arguments swaps the two flag arrays. */
  lemma FlagsSwap(s: string, t: string)
    ensures LeftFlags(Matched(s, t)) == RightFlags(Matched(t, s), |s|)
    ensures RightFlags(Matched(s, t), |t|) == LeftFlags(Matched(t, s))
  {
    var d := MatchDistance(s, t);
    var f, g := Matched(s, t), Matched(t, s);
    GreedyIsStable(s, t, d, |s|);
    GreedyIsStable(t, s, d, |t|);
    StableMatchingsAgree(s, t, d, f, g, |s|);
    forall i | 0 <= i < |s| ensures f[i].Some? == (Some(i) in g) {
      if f[i].Some? {
        assert Compatible(s, t, d, i, f[i].value);
        assert g[f[i].value] == Some(i);
      }
    }
    forall j | 0 <= j < |t| ensures (Some(j) in f) == g[j].Some? {
      if g[j].Some? {
        assert Compatible(t, s, d, j, g[j].value);
        assert f[g[j].value] == Some(j);
      }
    }
  }

  lemma {:induction false} HammingSwap(a: string, b: string)
    requires |a| == |b|
    ensures Hamming(a, b) == Hamming(b, a)
  {
    if |a| == 0 {
    } else {
      HammingSwap(a[..|a| - 1], b[..|b| - 1]);
    }
  }

  // ---- Both flag arrays hold the same number of trues ----

  lemma {:induction false} PickedGrows(t: string, flags: seq<bool>, j: nat, n: nat)
    requires j < |t| == |flags| && n <= |t| && !flags[j]
    ensures |Picked(t, flags[j := true], n)| == |Picked(t, flags, n)| + (if j < n then 1 else 0)
  {
    if n == 0 {
    } else {
      PickedGrows(t, flags, j, n - 1);
    }
  }

  lemma {:induction false} NothingPicked(t: string, flags: seq<bool>, n: nat)
    requires n <= |t| == |flags| && forall j :: 0 <= j < n ==> !flags[j]
    ensures Picked(t, flags, n) == ""
  {
    if n == 0 {
    } else {
      NothingPicked(t, flags, n - 1);
    }
  }

  lemma {:induction false} RightCount(s: string, t: string, d: nat, f: Partners)
    requires IsMatching(s, t, d, f)
    ensures |Picked(t, RightFlags(f, |t|), |t|)| == Size(f)
  {
    if |f| == 0 {
      NothingPicked(t, RightFlags(f, |t|), |t|);
    } else {
      var n := |f| - 1;
      var h := f[..n];
      RightCount(s, t, d, h);
      assert f == h + [f[n]];
      if f[n].Some? {
        assert Compatible(s, t, d, n, f[n].value);
        assert f[n] !in h;
        PickedGrows(t, RightFlags(h, |t|), f[n].value, |t|);
      }
      FlagsStep(h, f[n], |t|);
    }
  }

  lemma {:induction false} LeftCount(s: string, f: Partners, n: nat)
    requires n <= |f| == |s|
    ensures |Picked(s, LeftFlags(f), n)| == Size(f[..n])
  {
    if n == 0 {
    } else {
      LeftCount(s, f, n - 1);
      assert f[..n][..n - 1] == f[..n - 1];
    }
  }

  /** The transposition walk therefore never runs past the second string. */
  lemma SameNumberOfFlags(s: string, t: string)
    ensures var f := Matched(s, t);
      |Picked(s, LeftFlags(f), |s|)| == |Picked(t, RightFlags(f, |t|), |t|)| == Size(f)
  {
    var d := MatchDistance(s, t);
    GreedyIsStable(s, t, d, |s|);
    RightCount(s, t, d, Matched(s, t));
    LeftCount(s, Matched(s, t), |s|);
    assert Matched(s, t)[..|s|] == Matched(s, t);
  }

  // ---- The greedy matching is a maximum matching ----

  /** Position x is held by a later row k: hand it to i, and let k take what i
      held, which is still inside the window of k. */
  lemma HandOverKeepsMatching(s: string, t: string, d: nat, h: Partners, i: nat, k: nat)
    requires |h| == |s| && i < k < |s| && IsMatching(s, t, d, h) && h[k].Some?
    requires Compatible(s, t, d, i, h[k].value) && (h[i].Some? ==> h[k].value < h[i].value)
    ensures IsMatching(s, t, d, h[i := h[k]][k := h[i]])
  {
    assert Compatible(s, t, d, k, h[k].value);
    if h[i].Some? {
      assert Compatible(s, t, d, i, h[i].value);
    }
  }

  /** A matching that agrees with the greedy one before `i` can be changed,
      without losing a pair, into one that also agrees with it at `i`. */
  lemma Exchange(s: string, t: string, d: nat, h: Partners, i: nat) returns (h': Partners)
    requires |h| == |s| && i < |s| && IsMatching(s, t, d, h)
    requires h[..i] == Greedy(s, t, d, i)
    ensures |h'| == |s| && IsMatching(s, t, d, h')
    ensures h'[..i + 1] == Greedy(s, t, d, i + 1)
    ensures Size(h) <= Size(h')
  {
    var x := FirstFree(s, t, d, h[..i], i, WindowStart(d, i));
    FirstFreeIsFirst(s, t, d, h[..i], i, WindowStart(d, i));
    if h[i].Some? {
      assert Compatible(s, t, d, i, h[i].value);
      assert Some(h[i].value) !in h[..i];
    }
    if x == h[i] {
      h' := h;
    } else if x in h {
      var k: nat :| k < |h| && h[k] == x;
      assert k >= i by {
        assert forall l :: 0 <= l < i ==> h[..i][l] == h[l];
      }
      HandOverKeepsMatching(s, t, d, h, i, k);
      h' := h[i := x][k := h[i]];
      SumAfterUpdate(h, i, x, IsPaired);
      SumAfterUpdate(h[i := x], k, h[i], IsPaired);
    } else {
      h' := h[i := x];
      SumAfterUpdate(h, i, x, IsPaired);
    }
    assert h'[..i + 1] == h[..i] + [x];
  }

  lemma {:induction false} NoLargerMatchingFrom(s: string, t: string, d: nat, h: Partners, i: nat)
    requires |h| == |s| && i <= |s| && IsMatching(s, t, d, h)
    requires h[..i] == Greedy(s, t, d, i)
    ensures Size(h) <= Size(Greedy(s, t, d, |s|))
    decreases |s| - i
  {
    if i < |s| {
      var h' := Exchange(s, t, d, h, i);
      NoLargerMatchingFrom(s, t, d, h', i + 1);
    } else {
      assert h[..i] == h;
    }
  }

  /** No pairing of equal characters inside the window has more pairs than the
      scan finds. */
  lemma GreedyIsMaximum(s: string, t: string, h: Partners)
    requires |h| == |s| && IsMatching(s, t, MatchDistance(s, t), h)
    ensures Size(h) <= Size(Matched(s, t))
  {
    NoLargerMatchingFrom(s, t, MatchDistance(s, t), h, 0);
  }

  // ---- Equal strings, and equal subsequences ----

  lemma {:induction false} AllPicked(s: string, flags: seq<bool>, n: nat)
    requires n <= |s| == |flags| && |Picked(s, flags, n)| == n
    ensures Picked(s, flags, n) == s[..n]
  {
    if n == 0 {
    } else {
      AllPicked(s, flags, n - 1);
    }
  }

  lemma {:induction false} HammingZero(a: string, b: string)
    requires |a| == |b|
    ensures Hamming(a, b) == 0 <==> a == b
  {
    if |a| == 0 {
    } else {
      HammingZero(a[..|a| - 1], b[..|b| - 1]);
      assert a == a[..|a| - 1] + [a[|a| - 1]];
      assert b == b[..|b| - 1] + [b[|b| - 1]];
    }
  }

  /** A string matches itself everywhere: the identity is a matching of full
      size, and the greedy one is no smaller. */
  lemma EqualStringsMatchFully(s: string)
    ensures Size(Matched(s, s)) == |s|
  {
    var id := seq(|s|, i => Some(i));
    FullSize(id);
    GreedyIsMaximum(s, s, id);
    SameNumberOfFlags(s, s);
  }

  lemma {:induction false} FullSize(f: Partners)
    requires forall i :: 0 <= i < |f| ==> f[i].Some?
    ensures Size(f) == |f|
  {
    if |f| == 0 {
    } else {
      FullSize(f[..|f| - 1]);
    }
  }

  // ---- The program ----

  lemma FlagsStep(f: Partners, x: Option<nat>, n: nat)
    requires x.Some? ==> x.value < n
    ensures LeftFlags(f + [x]) == LeftFlags(f) + [x.Some?]
    ensures RightFlags(f + [x], n) == if x.Some? then RightFlags(f, n)[x.value := true] else RightFlags(f, n)
    ensures Size(f + [x]) == Size(f) + (if x.Some? then 1 else 0)
  {
    assert (f + [x])[..|f|] == f;
    assert forall k: nat :: Some(k) in f + [x] <==> Some(k) in f || Some(k) == x;
  }

  /** The scan over flag arrays finds the greedy matching. */
  method FindMatches(s: string, t: string, d: nat)
    returns (left: array<bool>, right: array<bool>, matches: nat)
    ensures fresh(left) && fresh(right)
    ensures left[..] == LeftFlags(Greedy(s, t, d, |s|))
    ensures right[..] == RightFlags(Greedy(s, t, d, |s|), |t|)
    ensures matches == Size(Greedy(s, t, d, |s|))
  {
    left := new bool[|s|](_ => false);
    right := new bool[|t|](_ => false);
    matches := 0;
    ghost var f: Partners := [];
    for i := 0 to |s|
      invariant left.Length == |s| && right.Length == |t|
      invariant f == Greedy(s, t, d, i)
      invariant left[..i] == LeftFlags(f) && (forall k :: i <= k < |s| ==> !left[k])
      invariant right[..] == RightFlags(f, |t|)
      invariant matches == Size(f)
    {
      var j := WindowStart(d, i);
      var end := if i + d + 1 < |t| then i + d + 1 else |t|;
      ghost var first := FirstFree(s, t, d, f, i, j);
      FirstFreeIsFirst(s, t, d, f, i, j);
      while j < end && (right[j] || s[i] != t[j])
        invariant first == FirstFree(s, t, d, f, i, j)
      {
        assert right[j] == right[..][j];
        j := j + 1;
      }
      FlagsStep(f, first, |t|);
      if j < end {
        assert right[j] == right[..][j];
        left[i] := true;
        right[j] := true;
        matches := matches + 1;
      }
      f := f + [first];
      assert left[..i + 1] == left[..i] + [left[i]];
    }
    assert left[..] == left[..|s|];
  }

  lemma {:induction false} PickedPrefix(s: string, flags: seq<bool>, i: nat, n: nat)
    requires i <= n <= |s| == |flags|
    ensures Picked(s, flags, i) <= Picked(s, flags, n)
    ensures |Picked(s, flags, i)| == |Picked(s, flags, n)| ==> Picked(s, flags, i) == Picked(s, flags, n)
  {
    if i == n {
    } else {
      PickedPrefix(s, flags, i, n - 1);
    }
  }

  lemma HammingStep(a: string, b: string, x: char, y: char)
    requires |a| == |b|
    ensures Hamming(a + [x], b + [y]) == Hamming(a, b) + (if x != y then 1 else 0)
  {
    assert (a + [x])[..|a|] == a && (b + [y])[..|b|] == b;
  }

  /** The inner loop of the walk: skip to the next flagged position, which
      exists as long as some flagged character lies ahead. */
  method NextFlag(t: string, right: array<bool>, start: nat) returns (k: nat)
    requires right.Length == |t| && start <= |t|
    requires |Picked(t, right[..], start)| < |Picked(t, right[..], |t|)|
    ensures start <= k < |t| && right[k]
    ensures Picked(t, right[..], k) == Picked(t, right[..], start)
  {
    k := start;
    while !right[k]
      invariant start <= k < |t|
      invariant Picked(t, right[..], k) == Picked(t, right[..], start)
      decreases |t| - k
    {
      assert Picked(t, right[..], k + 1) == Picked(t, right[..], k);
      k := k + 1;
    }
  }

  /** The walk over both flag arrays counts the places in which the two
      matched subsequences differ. */
  method CountTranspositions(s: string, t: string, left: array<bool>, right: array<bool>)
    returns (transpositions: nat)
    requires left.Length == |s| && right.Length == |t|
    requires |Picked(s, left[..], |s|)| == |Picked(t, right[..], |t|)|
    ensures transpositions == Hamming(Picked(s, left[..], |s|), Picked(t, right[..], |t|))
  {
    ghost var l, r := left[..], right[..];
    transpositions := 0;
    var k := 0;
    ghost var a, b := "", "";
    for i := 0 to |s|
      invariant k <= |t|
      invariant a == Picked(s, l, i) && b == Picked(t, r, k)
      invariant |a| == |b| && transpositions == Hamming(a, b)
    {
      if left[i] {
        PickedPrefix(s, l, i + 1, |s|);
        k := NextFlag(t, right, k);
        HammingStep(a, b, s[i], t[k]);
        a, b := a + [s[i]], b + [t[k]];
        if s[i] != t[k] {
          transpositions := transpositions + 1;
        }
        k := k + 1;
      }
    }
    PickedPrefix(t, r, k, |t|);
  }

}
