/**
  Sorting by descending key, equal keys keeping their order: what Python's
  `sorted(..., reverse=True)` does.  Lists are sorted by position here.
 */
module StableSort {

  /** Position `j` comes before position `i` in the sorted list. */
  predicate Beats(keys: seq<real>, j: nat, i: nat)
    requires i < |keys| && j < |keys|
  {
    keys[j] > keys[i] || (keys[j] == keys[i] && j < i)
  }

  /** How many of the first `n` positions come before `i`. */
  function CountAhead(keys: seq<real>, i: nat, n: nat): nat
    requires i < |keys| && n <= |keys|
  {
    if n == 0 then 0 else CountAhead(keys, i, n - 1) + if Beats(keys, n - 1, i) then 1 else 0
  }

  /** The index of position `i` in the sorted list. */
  function Rank(keys: seq<real>, i: nat): nat
    requires i < |keys|
  {
    CountAhead(keys, i, |keys|)
  }

  /** The positions that come before `i`: those with a greater key, and earlier
      ones with the same key. */
  function Ahead(keys: seq<real>, i: nat, n: nat): set<nat>
    requires i < |keys| && n <= |keys|
  {
    set j | 0 <= j < n && (keys[j] > keys[i] || (keys[j] == keys[i] && j < i))
  }

  lemma {:induction false} CountAheadIs(keys: seq<real>, i: nat, n: nat)
    requires i < |keys| && n <= |keys|
    ensures CountAhead(keys, i, n) == |Ahead(keys, i, n)|
  {
    if n == 0 {
      assert Ahead(keys, i, 0) == {};
    } else {
      CountAheadIs(keys, i, n - 1);
      assert Ahead(keys, i, n) == Ahead(keys, i, n - 1) + if Beats(keys, n - 1, i) then {n - 1} else {};
    }
  }

  lemma {:induction false} CountAheadOrder(keys: seq<real>, a: nat, b: nat, n: nat)
    requires a < |keys| && b < |keys| && n <= |keys| && Beats(keys, a, b)
    ensures CountAhead(keys, a, n) + (if a < n then 1 else 0) <= CountAhead(keys, b, n)
  {
    if n == 0 {
    } else {
      CountAheadOrder(keys, a, b, n - 1);
    }
  }

  lemma {:induction false} CountAheadRange(keys: seq<real>, i: nat, n: nat)
    requires i < |keys| && n <= |keys|
    ensures CountAhead(keys, i, n) + (if i < n then 1 else 0) <= n
  {
    if n == 0 {
    } else {
      CountAheadRange(keys, i, n - 1);
    }
  }

  lemma RankRange(keys: seq<real>, i: nat)
    requires i < |keys|
    ensures Rank(keys, i) < |keys|
  {
    CountAheadRange(keys, i, |keys|);
  }

  /** Smaller rank means earlier, and no two positions share a rank. */
  lemma RankOrder(keys: seq<real>, a: nat, b: nat)
    requires a < |keys| && b < |keys|
    ensures Rank(keys, a) < Rank(keys, b) <==> Beats(keys, a, b)
    ensures Rank(keys, a) == Rank(keys, b) <==> a == b
  {
    if Beats(keys, a, b) {
      CountAheadOrder(keys, a, b, |keys|);
    } else if Beats(keys, b, a) {
      CountAheadOrder(keys, b, a, |keys|);
    }
  }

  // ---- Every rank is taken ----

  function Below(n: nat): (s: set<nat>)
    ensures |s| == n && forall k :: k in s <==> 0 <= k < n
  {
    if n == 0 then {} else Below(n - 1) + {n - 1}
  }

  function Elements(xs: seq<nat>): (s: set<nat>)
    ensures forall k :: k in s <==> k in xs
  {
    if xs == [] then {} else
      assert forall k :: k in xs <==> k in xs[..|xs| - 1] || k == xs[|xs| - 1];
      Elements(xs[..|xs| - 1]) + {xs[|xs| - 1]}
  }

  lemma {:induction false} ElementsSize(xs: seq<nat>)
    requires forall i, j :: 0 <= i < j < |xs| ==> xs[i] != xs[j]
    ensures |Elements(xs)| == |xs|
  {
    if xs == [] {
    } else {
      ElementsSize(xs[..|xs| - 1]);
    }
  }

  lemma SameSize<T>(a: set<T>, b: set<T>)
    requires a <= b && |a| == |b|
    ensures a == b
  {
    assert |b - a| == |b| - |a|;
    assert b == a + (b - a);
  }

  /** As many different values as there are places fill every place. */
  lemma Pigeonhole(xs: seq<nat>, k: nat)
    requires k < |xs| && forall i :: 0 <= i < |xs| ==> xs[i] < |xs|
    requires forall i, j :: 0 <= i < j < |xs| ==> xs[i] != xs[j]
    ensures k in xs
  {
    ElementsSize(xs);
    SameSize(Elements(xs), Below(|xs|));
    assert k in Elements(xs);
  }

  lemma EveryRankIsTaken(keys: seq<real>, k: nat)
    requires k < |keys|
    ensures exists i :: 0 <= i < |keys| && Rank(keys, i) == k
  {
    var ranks := seq(|keys|, i requires 0 <= i < |keys| => Rank(keys, i));
    forall i, j | 0 <= i < j < |keys| ensures ranks[i] != ranks[j] {
      RankOrder(keys, i, j);
    }
    forall i | 0 <= i < |keys| ensures ranks[i] < |keys| {
      RankRange(keys, i);
    }
    Pigeonhole(ranks, k);
    var i :| 0 <= i < |ranks| && ranks[i] == k;
    assert Rank(keys, i) == k;
  }

  // ---- The sorted list ----

  /** The first position at or after `i` with rank `k`. */
  function AtRank(keys: seq<real>, k: nat, i: nat): nat
    requires i <= |keys|
    decreases |keys| - i
  {
    if i == |keys| || Rank(keys, i) == k then i else AtRank(keys, k, i + 1)
  }

  lemma {:induction false} AtRankFinds(keys: seq<real>, k: nat, i: nat, j: nat)
    requires i <= j < |keys| && Rank(keys, j) == k
    ensures AtRank(keys, k, i) == j
    decreases j - i
  {
    RankOrder(keys, i, j);
    if i < j {
      AtRankFinds(keys, k, i + 1, j);
    }
  }

  /** The positions in sorted order. */
  function Order(keys: seq<real>): seq<nat> {
    seq(|keys|, k requires 0 <= k < |keys| => AtRank(keys, k, 0))
  }

  lemma OrderHas(keys: seq<real>, i: nat)
    requires i < |keys|
    ensures Rank(keys, i) < |keys| && Order(keys)[Rank(keys, i)] == i
  {
    RankRange(keys, i);
    AtRankFinds(keys, Rank(keys, i), 0, i);
  }

  lemma OrderAt(keys: seq<real>, k: nat)
    requires k < |keys|
    ensures Order(keys)[k] < |keys| && Rank(keys, Order(keys)[k]) == k
  {
    EveryRankIsTaken(keys, k);
    var i :| 0 <= i < |keys| && Rank(keys, i) == k;
    AtRankFinds(keys, k, 0, i);
  }

  lemma OnlyOneAt(keys: seq<real>, p: nat, k: nat)
    requires p < |keys| && Rank(keys, p) == k
    ensures forall i :: 0 <= i < |keys| && Rank(keys, i) == k ==> i == p
  {
    forall i | 0 <= i < |keys| && Rank(keys, i) == k ensures i == p {
      RankOrder(keys, i, p);
    }
  }

  /** The sorted list holds every position once, in descending order of keys,
      and positions with equal keys keep their order. */
  lemma OrderIsStable(keys: seq<real>)
    ensures |Order(keys)| == |keys|
    ensures forall k :: 0 <= k < |keys| ==> Order(keys)[k] < |keys|
    ensures forall i :: 0 <= i < |keys| ==> i in Order(keys)
    ensures forall k, l :: 0 <= k < l < |keys| ==> Beats(keys, Order(keys)[k], Order(keys)[l])
  {
    forall k | 0 <= k < |keys| ensures Order(keys)[k] < |keys| && Rank(keys, Order(keys)[k]) == k {
      OrderAt(keys, k);
    }
    forall i | 0 <= i < |keys| ensures i in Order(keys) {
      OrderHas(keys, i);
    }
    forall k, l | 0 <= k < l < |keys| ensures Beats(keys, Order(keys)[k], Order(keys)[l]) {
      RankOrder(keys, Order(keys)[k], Order(keys)[l]);
    }
  }

  // ---- Ranks depend on comparisons only ----

  lemma {:induction false} SameCountAhead(keys: seq<real>, other: seq<real>, i: nat, n: nat)
    requires |keys| == |other| && i < |keys| && n <= |keys|
    requires forall j :: 0 <= j < |keys| ==> (Beats(keys, j, i) <==> Beats(other, j, i))
    ensures CountAhead(keys, i, n) == CountAhead(other, i, n)
  {
    if n == 0 {
    } else {
      SameCountAhead(keys, other, i, n - 1);
    }
  }

  /** Two lists of keys that compare alike are sorted alike. */
  lemma SameOrder(keys: seq<real>, other: seq<real>)
    requires |keys| == |other|
    requires forall i, j :: 0 <= i < |keys| && 0 <= j < |keys| ==> (Beats(keys, j, i) <==> Beats(other, j, i))
    ensures Order(keys) == Order(other)
    ensures forall i :: 0 <= i < |keys| ==> Rank(keys, i) == Rank(other, i)
  {
    forall i | 0 <= i < |keys| ensures Rank(keys, i) == Rank(other, i) {
      SameCountAhead(keys, other, i, |keys|);
    }
    forall k | 0 <= k < |keys| ensures Order(keys)[k] == Order(other)[k] {
      OrderAt(keys, k);
      OrderHas(other, Order(keys)[k]);
    }
  }
}
