/**
  Reciprocal rank fusion: several ranked lists of profiles merged into one by
  the sum of 1 / (k + rank) over all places at which a profile occurs.
 */
module Fusion {
  import opened Basics
  import opened StableSort

  datatype Hit = Hit(id: string, score: real)

  /** The lists in the order in which they are passed: the first two are the
      vector and the keyword results. */
  datatype Fused = Fused(id: string, score: real, vectorScore: real, keywordScore: real,
                         vectorRank: nat, keywordRank: nat)

  function Weight(k: nat, rank: nat): real
    requires rank > 0
  {
    1.0 / (k + rank) as real
  }

  /** How often `id` occurs among the first `n` entries. */
  function Count(list: seq<Hit>, id: string, n: nat): nat
    requires n <= |list|
  {
    if n == 0 then 0 else Count(list, id, n - 1) + if list[n - 1].id == id then 1 else 0
  }

  /** What the first `n` entries give to `id`. */
  function Gain(k: nat, list: seq<Hit>, id: string, n: nat): real
    requires n <= |list|
  {
    if n == 0 then 0.0 else Gain(k, list, id, n - 1) + if list[n - 1].id == id then Weight(k, n) else 0.0
  }

  function CountAll(lists: seq<seq<Hit>>, id: string): nat {
    if lists == [] then 0 else Count(lists[0], id, |lists[0]|) + CountAll(lists[1..], id)
  }

  function Score(k: nat, lists: seq<seq<Hit>>, id: string): real {
    if lists == [] then 0.0 else Gain(k, lists[0], id, |lists[0]|) + Score(k, lists[1..], id)
  }

  /** The rank of the last occurrence among the first `n` entries, or 0. */
  function LastRank(list: seq<Hit>, id: string, n: nat): (rank: nat)
    requires n <= |list|
    ensures rank <= n
  {
    if n == 0 then 0 else if list[n - 1].id == id then n else LastRank(list, id, n - 1)
  }

  function LastScore(list: seq<Hit>, id: string, n: nat): real
    requires n <= |list|
  {
    if LastRank(list, id, n) == 0 then 0.0 else list[LastRank(list, id, n) - 1].score
  }

  ghost predicate DistinctIds(results: seq<Fused>) {
    forall i, j :: 0 <= i < j < |results| ==> results[i].id != results[j].id
  }

  /** What the fusion promises: every id of the lists once, by descending
      score, with its score. */
  ghost predicate IsFusion(k: nat, lists: seq<seq<Hit>>, results: seq<Fused>) {
    && DistinctIds(results)
    && (forall id :: CountAll(lists, id) > 0 <==> exists i :: 0 <= i < |results| && results[i].id == id)
    && (forall i :: 0 <= i < |results| ==> results[i].score == Score(k, lists, results[i].id))
    && (forall i, j :: 0 <= i < j < |results| ==> results[i].score >= results[j].score)
  }

  // ---- Sums over the lists, from the front ----

  lemma {:induction false} OneMoreList(k: nat, lists: seq<seq<Hit>>, list: seq<Hit>, id: string)
    ensures Score(k, lists + [list], id) == Score(k, lists, id) + Gain(k, list, id, |list|)
    ensures CountAll(lists + [list], id) == CountAll(lists, id) + Count(list, id, |list|)
  {
    if lists == [] {
      assert (lists + [list])[1..] == [];
    } else {
      assert (lists + [list])[1..] == lists[1..] + [list];
      OneMoreList(k, lists[1..], list, id);
    }
  }

  // ---- The method ----

  /** What the entry of `id` holds when the lists `before` and the first `n`
      entries of `list` have been read. */
  ghost predicate Entry(k: nat, before: seq<seq<Hit>>, list: seq<Hit>, n: nat, e: Fused)
    requires n <= |list|
  {
    && e.score == Score(k, before, e.id) + Gain(k, list, e.id, n)
    && e.vectorRank == RankIn(before, list, n, 0, e.id) && e.vectorScore == ScoreIn(before, list, n, 0, e.id)
    && e.keywordRank == RankIn(before, list, n, 1, e.id) && e.keywordScore == ScoreIn(before, list, n, 1, e.id)
  }

  function RankIn(before: seq<seq<Hit>>, list: seq<Hit>, n: nat, which: nat, id: string): nat
    requires n <= |list|
  {
    if which < |before| then LastRank(before[which], id, |before[which]|)
    else if which == |before| then LastRank(list, id, n) else 0
  }

  function ScoreIn(before: seq<seq<Hit>>, list: seq<Hit>, n: nat, which: nat, id: string): real
    requires n <= |list|
  {
    if which < |before| then LastScore(before[which], id, |before[which]|)
    else if which == |before| then LastScore(list, id, n) else 0.0
  }

  function Fresh(id: string): Fused {
    Fused(id, 0.0, 0.0, 0.0, 0, 0)
  }

  /** The entry once entry `n` of `list`, which is for the same id, is read. */
  function Read(k: nat, before: seq<seq<Hit>>, list: seq<Hit>, n: nat, e: Fused): Fused
    requires n < |list|
  {
    var f := e.(score := e.score + Weight(k, n + 1));
    if |before| == 0 then f.(vectorScore := list[n].score, vectorRank := n + 1)
    else if |before| == 1 then f.(keywordScore := list[n].score, keywordRank := n + 1)
    else f
  }

  lemma NextListKeepsEntry(k: nat, before: seq<seq<Hit>>, list: seq<Hit>, next: seq<Hit>, e: Fused)
    requires Entry(k, before, list, |list|, e)
    ensures Entry(k, before + [list], next, 0, e)
  {
    OneMoreList(k, before, list, e.id);
  }

  function Lookup(merged: map<string, Fused>, id: string): Fused {
    if id in merged then merged[id] else Fresh(id)
  }

  /** The dictionary of results: an entry for each id read. */
  ghost predicate Merged(k: nat, before: seq<seq<Hit>>, list: seq<Hit>, n: nat, merged: map<string, Fused>)
    requires n <= |list|
  {
    && (forall id :: id in merged <==> CountAll(before, id) + Count(list, id, n) > 0)
    && (forall id :: Lookup(merged, id).id == id && Entry(k, before, list, n, Lookup(merged, id)))
  }

  /** The keys of the dictionary in the order in which they were added. */
  ghost predicate KeysOf(keys: seq<string>, merged: map<string, Fused>) {
    && (forall i, j :: 0 <= i < j < |keys| ==> keys[i] != keys[j])
    && (forall id :: id in merged <==> id in keys)
  }

  lemma ReadKeepsMerged(k: nat, before: seq<seq<Hit>>, list: seq<Hit>, n: nat, merged: map<string, Fused>)
    requires n < |list| && Merged(k, before, list, n, merged)
    ensures var id := list[n].id;
      Merged(k, before, list, n + 1, merged[id := Read(k, before, list, n, Lookup(merged, id))])
  {
    var id := list[n].id;
    var next := merged[id := Read(k, before, list, n, Lookup(merged, id))];
    forall q ensures Lookup(next, q).id == q && Entry(k, before, list, n + 1, Lookup(next, q)) {
      assert Lookup(next, q) == if q == id then Read(k, before, list, n, Lookup(merged, id)) else Lookup(merged, q);
    }
  }

  lemma NextListKeepsMerged(k: nat, before: seq<seq<Hit>>, list: seq<Hit>, next: seq<Hit>, merged: map<string, Fused>)
    requires Merged(k, before, list, |list|, merged)
    ensures Merged(k, before + [list], next, 0, merged)
  {
    forall id
      ensures Entry(k, before + [list], next, 0, Lookup(merged, id))
      ensures CountAll(before + [list], id) == CountAll(before, id) + Count(list, id, |list|)
    {
      NextListKeepsEntry(k, before, list, next, Lookup(merged, id));
      OneMoreList(k, before, list, id);
    }
  }

  /** The inner loop: one ranked list. */
  method ReadList(k: nat, ghost before: seq<seq<Hit>>, listIdx: nat, list: seq<Hit>,
                  keys: seq<string>, merged: map<string, Fused>)
      returns (keys': seq<string>, merged': map<string, Fused>)
    requires listIdx == |before| && Merged(k, before, list, 0, merged) && KeysOf(keys, merged)
    ensures Merged(k, before, list, |list|, merged') && KeysOf(keys', merged')
  {
    keys', merged' := keys, merged;
    var n := 0;
    while n < |list|
      invariant n <= |list| && Merged(k, before, list, n, merged') && KeysOf(keys', merged')
    {
      ReadKeepsMerged(k, before, list, n, merged');
      var id, rank := list[n].id, n + 1;
      var e := if id in merged' then merged'[id] else Fresh(id);
      if id !in merged' {
        keys' := keys' + [id];
      }
      e := e.(score := e.score + Weight(k, rank));
      if listIdx == 0 {
        e := e.(vectorScore := list[n].score, vectorRank := rank);
      } else if listIdx == 1 {
        e := e.(keywordScore := list[n].score, keywordRank := rank);
      }
      merged' := merged'[id := e];
      n := n + 1;
    }
  }

  /** The ranks and scores kept from the first two lists. */
  ghost predicate KeepsFirstTwo(lists: seq<seq<Hit>>, e: Fused) {
    && e.vectorRank == RankIn(lists, [], 0, 0, e.id) && e.vectorScore == ScoreIn(lists, [], 0, 0, e.id)
    && e.keywordRank == RankIn(lists, [], 0, 1, e.id) && e.keywordScore == ScoreIn(lists, [], 0, 1, e.id)
  }

  method ReciprocalRankFusion(lists: seq<seq<Hit>>, k: nat := 60) returns (results: seq<Fused>)
    ensures IsFusion(k, lists, results)
    ensures forall i :: 0 <= i < |results| ==> KeepsFirstTwo(lists, results[i])
  {
    var keys: seq<string>, merged: map<string, Fused> := [], map[];
    var m := 0;
    while m < |lists|
      invariant m <= |lists| && KeysOf(keys, merged)
      invariant Merged(k, lists[..m], if m < |lists| then lists[m] else [], 0, merged)
    {
      keys, merged := ReadList(k, lists[..m], m, lists[m], keys, merged);
      NextListKeepsMerged(k, lists[..m], lists[m], if m + 1 < |lists| then lists[m + 1] else [], merged);
      assert lists[..m] + [lists[m]] == lists[..m + 1];
      m := m + 1;
    }
    assert lists[..m] == lists;
    results := Sorted(keys, merged);
    SortedIsFusion(k, lists, keys, merged);
  }

  function Values(keys: seq<string>, merged: map<string, Fused>): seq<Fused> {
    seq(|keys|, i requires 0 <= i < |keys| => Lookup(merged, keys[i]))
  }

  function ScoreKeys(values: seq<Fused>): seq<real> {
    seq(|values|, i requires 0 <= i < |values| => values[i].score)
  }

  /** The values of the dictionary sorted by descending score. */
  function Sorted(keys: seq<string>, merged: map<string, Fused>): seq<Fused> {
    var values := Values(keys, merged);
    OrderIsStable(ScoreKeys(values));
    seq(|values|, i requires 0 <= i < |values| => values[Order(ScoreKeys(values))[i]])
  }

  lemma SortedIsFusion(k: nat, lists: seq<seq<Hit>>, keys: seq<string>, merged: map<string, Fused>)
    requires Merged(k, lists, [], 0, merged) && KeysOf(keys, merged)
    ensures IsFusion(k, lists, Sorted(keys, merged))
    ensures forall i :: 0 <= i < |Sorted(keys, merged)| ==> KeepsFirstTwo(lists, Sorted(keys, merged)[i])
  {
    var values, results := Values(keys, merged), Sorted(keys, merged);
    var scores := ScoreKeys(values);
    OrderIsStable(scores);
    forall i | 0 <= i < |results|
      ensures results[i].score == Score(k, lists, results[i].id) && KeepsFirstTwo(lists, results[i])
    {
      assert Entry(k, lists, [], 0, Lookup(merged, keys[Order(scores)[i]]));
    }
    forall id | CountAll(lists, id) > 0 ensures exists i :: 0 <= i < |results| && results[i].id == id {
      assert id in merged;
      var j :| 0 <= j < |keys| && keys[j] == id;
      OrderHas(scores, j);
      assert results[Rank(scores, j)].id == id;
    }
    forall i | 0 <= i < |results| ensures CountAll(lists, results[i].id) > 0 {
      assert keys[Order(scores)[i]] in merged;
    }
    forall i, j | 0 <= i < j < |results|
      ensures results[i].score >= results[j].score && results[i].id != results[j].id
    {
      assert Beats(scores, Order(scores)[i], Order(scores)[j]);
    }
  }

  // ---- The order of the lists does not matter ----

  function Without<T>(xs: seq<T>, i: nat): seq<T>
    requires i < |xs|
  {
    xs[..i] + xs[i + 1..]
  }

  lemma {:induction false} TakeOut(k: nat, lists: seq<seq<Hit>>, i: nat, id: string)
    requires i < |lists|
    ensures Score(k, lists, id) == Gain(k, lists[i], id, |lists[i]|) + Score(k, Without(lists, i), id)
    ensures CountAll(lists, id) == Count(lists[i], id, |lists[i]|) + CountAll(Without(lists, i), id)
  {
    if i == 0 {
      assert Without(lists, 0) == lists[1..];
    } else {
      TakeOut(k, lists[1..], i - 1, id);
      assert Without(lists, i)[0] == lists[0];
      assert Without(lists, i)[1..] == Without(lists[1..], i - 1);
    }
  }

  lemma WithoutElement<T>(xs: seq<T>, i: nat)
    requires i < |xs|
    ensures multiset(Without(xs, i)) == multiset(xs) - multiset{xs[i]}
  {
    assert xs == xs[..i] + [xs[i]] + xs[i + 1..];
  }

  lemma {:induction false} PermutedScores(k: nat, lists: seq<seq<Hit>>, other: seq<seq<Hit>>, id: string)
    requires multiset(lists) == multiset(other)
    ensures Score(k, lists, id) == Score(k, other, id) && CountAll(lists, id) == CountAll(other, id)
    decreases |lists|
  {
    if lists == [] {
      assert |multiset(other)| == 0;
      assert other == [];
    } else {
      assert lists[0] in multiset(other);
      var i :| 0 <= i < |other| && other[i] == lists[0];
      WithoutElement(lists, 0);
      WithoutElement(other, i);
      assert Without(lists, 0) == lists[1..];
      PermutedScores(k, lists[1..], Without(other, i), id);
      TakeOut(k, other, i, id);
    }
  }

  /** Passing the lists in another order changes neither ids nor scores: what
      is a fusion of the one is a fusion of the other. */
  lemma ListOrderDoesNotMatter(k: nat, lists: seq<seq<Hit>>, other: seq<seq<Hit>>, results: seq<Fused>)
    requires multiset(lists) == multiset(other)
    ensures IsFusion(k, lists, results) <==> IsFusion(k, other, results)
  {
    forall id ensures Score(k, lists, id) == Score(k, other, id) && CountAll(lists, id) == CountAll(other, id) {
      PermutedScores(k, lists, other, id);
    }
  }

  // ---- Dominance ----

  /** Up to every rank `a` occurs in the list at least as often as `b`. */
  ghost predicate AtLeastAsGood(list: seq<Hit>, a: string, b: string) {
    forall n :: 0 <= n <= |list| ==> Count(list, a, n) >= Count(list, b, n)
  }

  /** Up to some rank `a` occurs more often than `b`. */
  ghost predicate BetterSomewhere(list: seq<Hit>, a: string, b: string) {
    exists n :: 0 <= n <= |list| && Count(list, a, n) > Count(list, b, n)
  }

  lemma WeightsFall(k: nat, rank: nat, later: nat)
    requires 0 < rank < later
    ensures Weight(k, rank) > Weight(k, later) > 0.0
  {
    ReciprocalOrder((k + rank) as real, (k + later) as real);
  }

  function Lead(list: seq<Hit>, a: string, b: string, n: nat): int
    requires n <= |list|
  {
    Count(list, a, n) - Count(list, b, n)
  }

  function GainLead(k: nat, list: seq<Hit>, a: string, b: string, n: nat): real
    requires n <= |list|
  {
    Gain(k, list, a, n) - Gain(k, list, b, n)
  }

  /** One more entry changes the gain by the change of the lead. */
  lemma EntryWorth(k: nat, list: seq<Hit>, a: string, b: string, n: nat)
    requires 0 < n <= |list|
    ensures GainLead(k, list, a, b, n)
            == GainLead(k, list, a, b, n - 1) + (Lead(list, a, b, n) - Lead(list, a, b, n - 1)) as real * Weight(k, n)
  {
  }

  lemma WorthStep(d: int, e: int, before: real, after: real, heavier: real, w: real)
    requires d >= 0 && heavier > w && before >= d as real * heavier && after == before + e as real * w
    ensures after >= (d + e) as real * w
  {
    ScaledOrder(d as real, heavier, w);
  }

  /** Summation by parts: a lead of d occurrences at rank n is worth at least
      d times the weight of rank n. */
  lemma {:induction false} LeadIsWorth(k: nat, list: seq<Hit>, a: string, b: string, n: nat)
    requires 0 < n <= |list| && AtLeastAsGood(list, a, b)
    ensures GainLead(k, list, a, b, n) >= Lead(list, a, b, n) as real * Weight(k, n)
  {
    EntryWorth(k, list, a, b, n);
    if n > 1 {
      LeadIsWorth(k, list, a, b, n - 1);
      WeightsFall(k, n - 1, n);
      WorthStep(Lead(list, a, b, n - 1), Lead(list, a, b, n) - Lead(list, a, b, n - 1),
                GainLead(k, list, a, b, n - 1), GainLead(k, list, a, b, n), Weight(k, n - 1), Weight(k, n));
    }
  }

  lemma {:induction false} LeadPays(k: nat, list: seq<Hit>, a: string, b: string, m: nat, n: nat)
    requires m <= n <= |list| && AtLeastAsGood(list, a, b) && Lead(list, a, b, m) > 0
    ensures GainLead(k, list, a, b, n) > 0.0
    decreases n - m
  {
    WeightsFall(k, n, n + 1);
    LeadIsWorth(k, list, a, b, n);
    if Lead(list, a, b, n) > 0 {
      ScaledOrder(Weight(k, n), Lead(list, a, b, n) as real, 0.0);
    } else {
      LeadPays(k, list, a, b, m, n - 1);
      LeadIsWorth(k, list, a, b, n - 1);
      WeightsFall(k, n - 1, n);
    }
  }

  lemma ListDominance(k: nat, list: seq<Hit>, a: string, b: string)
    requires AtLeastAsGood(list, a, b)
    ensures Gain(k, list, a, |list|) >= Gain(k, list, b, |list|)
    ensures BetterSomewhere(list, a, b) ==> Gain(k, list, a, |list|) > Gain(k, list, b, |list|)
  {
    if BetterSomewhere(list, a, b) {
      var m :| 0 <= m <= |list| && Count(list, a, m) > Count(list, b, m);
      LeadPays(k, list, a, b, m, |list|);
    } else if |list| > 0 {
      LeadIsWorth(k, list, a, b, |list|);
      assert Lead(list, a, b, |list|) == 0;
    }
  }

  lemma {:induction false} ScoresDominate(k: nat, lists: seq<seq<Hit>>, a: string, b: string)
    requires forall l :: 0 <= l < |lists| ==> AtLeastAsGood(lists[l], a, b)
    ensures Score(k, lists, a) >= Score(k, lists, b)
    ensures (exists l :: 0 <= l < |lists| && BetterSomewhere(lists[l], a, b)) ==>
      Score(k, lists, a) > Score(k, lists, b)
  {
    if lists == [] {
    } else {
      ListDominance(k, lists[0], a, b);
      ScoresDominate(k, lists[1..], a, b);
      forall l | 1 <= l < |lists| && BetterSomewhere(lists[l], a, b) ensures Score(k, lists, a) > Score(k, lists, b) {
        assert BetterSomewhere(lists[1..][l - 1], a, b);
      }
    }
  }

  /** An id that is at least as good as another in every list, and better in
      some list, comes before it. */
  lemma DominatorComesFirst(k: nat, lists: seq<seq<Hit>>, results: seq<Fused>, i: nat, j: nat)
    requires IsFusion(k, lists, results) && i < |results| && j < |results|
    requires forall l :: 0 <= l < |lists| ==> AtLeastAsGood(lists[l], results[i].id, results[j].id)
    requires exists l :: 0 <= l < |lists| && BetterSomewhere(lists[l], results[i].id, results[j].id)
    ensures i < j
  {
    ScoresDominate(k, lists, results[i].id, results[j].id);
  }

  predicate NoRepeats(list: seq<Hit>) {
    forall p, q :: 0 <= p < q < |list| ==> list[p].id != list[q].id
  }

  lemma {:induction false} CountByRank(list: seq<Hit>, id: string, n: nat)
    requires NoRepeats(list) && n <= |list|
    ensures Count(list, id, n) == if LastRank(list, id, n) > 0 then 1 else 0
    ensures LastRank(list, id, n) > 0 ==> list[LastRank(list, id, n) - 1].id == id
  {
    if n == 0 {
    } else {
      CountByRank(list, id, n - 1);
    }
  }

  lemma {:induction false} RankIsStable(list: seq<Hit>, id: string, n: nat)
    requires NoRepeats(list) && n <= |list|
    ensures var rank := LastRank(list, id, |list|); LastRank(list, id, n) == if rank <= n then rank else 0
    decreases |list| - n
  {
    if n == |list| {
    } else {
      RankIsStable(list, id, n + 1);
      CountByRank(list, id, n);
    }
  }

  /** In a list without repeats this says: `a` is ranked at least as well
      wherever `b` is ranked, and better where the ranks differ. */
  lemma RanksDecide(list: seq<Hit>, a: string, b: string)
    requires NoRepeats(list)
    ensures var x, y := LastRank(list, a, |list|), LastRank(list, b, |list|);
      && (AtLeastAsGood(list, a, b) <==> (y > 0 ==> 0 < x <= y))
      && (AtLeastAsGood(list, a, b) ==> (BetterSomewhere(list, a, b) <==> x > 0 && x != y))
  {
    var x, y := LastRank(list, a, |list|), LastRank(list, b, |list|);
    forall n | 0 <= n <= |list|
      ensures Count(list, a, n) == if 0 < x <= n then 1 else 0
      ensures Count(list, b, n) == if 0 < y <= n then 1 else 0
    {
      CountByRank(list, a, n);
      CountByRank(list, b, n);
      RankIsStable(list, a, n);
      RankIsStable(list, b, n);
    }
    assert Count(list, a, y) >= Count(list, b, y) ==> y > 0 ==> 0 < x <= y;
    assert x > 0 && x != y ==> (x < y || y == 0 ==> Count(list, a, x) > Count(list, b, x));
  }

  // ---- Scores and ranks in numbers ----

  /** What ranks are worth, where 0 stands for no rank. */
  function Worth(k: nat, ranks: seq<nat>): real {
    if ranks == [] then 0.0
    else (if ranks[0] == 0 then 0.0 else 1.0 / (k as real + ranks[0] as real)) + Worth(k, ranks[1..])
  }

  /** `rank` is where the id stands in the list, counted from 1; 0 if nowhere. */
  predicate IsRank(list: seq<Hit>, id: string, rank: nat) {
    && rank <= |list| && (rank > 0 ==> list[rank - 1].id == id)
    && forall p :: 0 <= p < |list| && list[p].id == id ==> p == rank - 1
  }

  lemma {:induction false} GainByRank(k: nat, list: seq<Hit>, id: string, rank: nat, n: nat)
    requires IsRank(list, id, rank) && n <= |list|
    ensures Gain(k, list, id, n) == if 0 < rank <= n then 1.0 / (k as real + rank as real) else 0.0
    ensures LastRank(list, id, n) == if rank <= n then rank else 0
  {
    if n == 0 {
    } else {
      GainByRank(k, list, id, rank, n - 1);
      assert (k + n) as real == k as real + n as real;
    }
  }

  /** With one rank in each list, the score is the sum of 1 / (k + rank). */
  lemma {:induction false} ScoreByRanks(k: nat, lists: seq<seq<Hit>>, id: string, ranks: seq<nat>)
    requires |ranks| == |lists| && forall l :: 0 <= l < |lists| ==> IsRank(lists[l], id, ranks[l])
    ensures Score(k, lists, id) == Worth(k, ranks)
  {
    if lists == [] {
    } else {
      GainByRank(k, lists[0], id, ranks[0], |lists[0]|);
      ScoreByRanks(k, lists[1..], id, ranks[1..]);
    }
  }

  /** The ranks and scores of the first two lists are kept, zero where the id
      does not occur. */
  lemma FirstTwoAreKept(lists: seq<seq<Hit>>, e: Fused, vector: nat, keyword: nat)
    requires KeepsFirstTwo(lists, e) && |lists| >= 2
    requires IsRank(lists[0], e.id, vector) && IsRank(lists[1], e.id, keyword)
    ensures e.vectorRank == vector && e.keywordRank == keyword
    ensures e.vectorScore == if vector == 0 then 0.0 else lists[0][vector - 1].score
    ensures e.keywordScore == if keyword == 0 then 0.0 else lists[1][keyword - 1].score
  {
    GainByRank(0, lists[0], e.id, vector, |lists[0]|);
    GainByRank(0, lists[1], e.id, keyword, |lists[1]|);
  }

  // ---- Two good ranks beat one occurrence ----

  lemma {:induction false} GainIsNotNegative(k: nat, list: seq<Hit>, id: string, n: nat)
    requires n <= |list|
    ensures Gain(k, list, id, n) >= 0.0
  {
    if n == 0 {
    } else {
      GainIsNotNegative(k, list, id, n - 1);
      WeightsFall(k, n, n + 1);
    }
  }

  lemma {:induction false} GainAtLeast(k: nat, list: seq<Hit>, id: string, rank: nat, n: nat)
    requires 0 < rank <= n <= |list| && list[rank - 1].id == id
    ensures Gain(k, list, id, n) >= Weight(k, rank)
  {
    WeightsFall(k, n, n + 1);
    if rank < n {
      GainAtLeast(k, list, id, rank, n - 1);
    } else {
      GainIsNotNegative(k, list, id, n - 1);
    }
  }

  /** `w` added up `n` times. */
  function Times(n: nat, w: real): real {
    if n == 0 then 0.0 else Times(n - 1, w) + w
  }

  lemma {:induction false} TimesAdd(n: nat, m: nat, w: real)
    ensures Times(n + m, w) == Times(n, w) + Times(m, w)
  {
    if m == 0 {
    } else {
      TimesAdd(n, m - 1, w);
    }
  }

  lemma {:induction false} GainAtMost(k: nat, list: seq<Hit>, id: string, n: nat)
    requires n <= |list|
    ensures Gain(k, list, id, n) <= Times(Count(list, id, n), Weight(k, 1))
  {
    if n == 0 {
    } else {
      GainAtMost(k, list, id, n - 1);
      if n > 1 {
        WeightsFall(k, 1, n);
      }
    }
  }

  lemma {:induction false} ScoreAtMost(k: nat, lists: seq<seq<Hit>>, id: string)
    ensures Score(k, lists, id) <= Times(CountAll(lists, id), Weight(k, 1))
  {
    if lists == [] {
    } else {
      GainAtMost(k, lists[0], id, |lists[0]|);
      ScoreAtMost(k, lists[1..], id);
      TimesAdd(Count(lists[0], id, |lists[0]|), CountAll(lists[1..], id), Weight(k, 1));
    }
  }

  lemma {:induction false} ScoreAtLeast(k: nat, lists: seq<seq<Hit>>, l: nat, id: string)
    requires l < |lists|
    ensures Score(k, lists, id) >= Gain(k, lists[l], id, |lists[l]|)
    ensures Score(k, lists[1..], id) >= 0.0
    decreases |lists|
  {
    GainIsNotNegative(k, lists[0], id, |lists[0]|);
    if |lists| > 1 {
      ScoreAtLeast(k, lists[1..], if l > 0 then l - 1 else 0, id);
      GainIsNotNegative(k, lists[1], id, |lists[1]|);
    }
  }

  lemma {:induction false} ScoreAtLeastTwo(k: nat, lists: seq<seq<Hit>>, l: nat, m: nat, id: string)
    requires l < m < |lists|
    ensures Score(k, lists, id) >= Gain(k, lists[l], id, |lists[l]|) + Gain(k, lists[m], id, |lists[m]|)
    decreases |lists|
  {
    GainIsNotNegative(k, lists[0], id, |lists[0]|);
    if l == 0 {
      ScoreAtLeast(k, lists[1..], m - 1, id);
    } else {
      ScoreAtLeastTwo(k, lists[1..], l - 1, m - 1, id);
    }
  }

  /** Twice the weight of rank k + 1 is more than that of rank 1, and twice
      the weight of rank k + 2 is exactly that of rank 1. */
  lemma TwiceTheWeight(k: nat)
    ensures 2.0 * Weight(k, k + 1) > Weight(k, 1)
    ensures 2.0 * Weight(k, k + 2) == Weight(k, 1)
  {
    var x := (k + 1) as real;
    assert Weight(k, k + 2) == 1.0 / (2.0 * x);
    assert 2.0 * (1.0 / (2.0 * x)) == 1.0 / x;
    WeightsFall(k, k + 1, k + 2);
  }

  /** An id at rank k + 1 or better in two lists comes before any id that
      occurs only once; with the default k = 60 that is rank 61. */
  lemma TwoListsBeatOne(k: nat, lists: seq<seq<Hit>>, results: seq<Fused>, i: nat, j: nat,
                        l: nat, m: nat, p: nat, q: nat)
    requires IsFusion(k, lists, results) && i < |results| && j < |results|
    requires l < m < |lists| && p < |lists[l]| && q < |lists[m]| && p <= k && q <= k
    requires lists[l][p].id == results[i].id && lists[m][q].id == results[i].id
    requires CountAll(lists, results[j].id) == 1
    ensures i < j
  {
    var a, b := results[i].id, results[j].id;
    GainAtLeast(k, lists[l], a, p + 1, |lists[l]|);
    GainAtLeast(k, lists[m], a, q + 1, |lists[m]|);
    ScoreAtLeastTwo(k, lists, l, m, a);
    ScoreAtMost(k, lists, b);
    TwiceTheWeight(k);
    if p < k {
      WeightsFall(k, p + 1, k + 1);
    }
    if q < k {
      WeightsFall(k, q + 1, k + 1);
    }
  }
}
