/**
  Ranking of discovered users: a rank on each axis, a weighted score of the
  two ranks, and the list sorted by that score.
 */
module Discovery {
  import opened Basics
  import opened StableSort

  datatype User = User(login: string, followers: int, stars: int, followersRank: nat, starsRank: nat, score: real)

  function FollowerKeys(users: seq<User>): seq<real> {
    seq(|users|, i requires 0 <= i < |users| => users[i].followers as real)
  }

  function StarKeys(users: seq<User>): seq<real> {
    seq(|users|, i requires 0 <= i < |users| => users[i].stars as real)
  }

  /** The part of the score an axis gives to a rank among `n` users. */
  function Norm(rank: nat, n: nat): real
    requires n > 0
  {
    1.0 - rank as real / n as real
  }

  function Mix(a: real, b: real, x: real, y: real): real {
    a * x + b * y
  }

  function Score(followersRank: nat, starsRank: nat, n: nat, alpha: real): real
    requires n > 0
  {
    Mix(alpha, 1.0 - alpha, Norm(followersRank, n), Norm(starsRank, n))
  }

  /** The ranks and scores the users get, in their original order. */
  function Scores(users: seq<User>, alpha: real): seq<real> {
    seq(|users|, i requires 0 <= i < |users| =>
      Score(Rank(FollowerKeys(users), i), Rank(StarKeys(users), i), |users|, alpha))
  }

  function Scored(users: seq<User>, alpha: real, i: nat): User
    requires i < |users|
  {
    users[i].(followersRank := Rank(FollowerKeys(users), i), starsRank := Rank(StarKeys(users), i),
              score := Scores(users, alpha)[i])
  }

  /** The positions of the users in the returned list. */
  function Positions(users: seq<User>, alpha: real): seq<nat> {
    Order(Scores(users, alpha))
  }

  // ---- The method ----

  /** What sorting in place does, given the sorted positions. */
  method Rearrange(items: array<User>, order: seq<nat>)
    requires |order| == items.Length && forall k :: 0 <= k < |order| ==> order[k] < |order|
    modifies items
    ensures forall k :: 0 <= k < items.Length ==> items[k] == old(items[order[k]])
  {
    var n := items.Length;
    var copy := items[..];
    var k := 0;
    while k < n
      invariant 0 <= k <= n && copy == old(items[..])
      invariant forall q :: 0 <= q < k ==> items[q] == copy[order[q]]
    {
      items[k] := copy[order[k]];
      k := k + 1;
    }
  }

  method RankFollowers(items: array<User>)
    modifies items
    ensures forall i :: 0 <= i < items.Length ==>
      items[i] == old(items[i]).(followersRank := Rank(FollowerKeys(old(items[..])), i))
  {
    ghost var was := items[..];
    var keys := FollowerKeys(items[..]);
    var order := Order(keys);
    OrderIsStable(keys);
    var idx := 0;
    while idx < items.Length
      invariant idx <= items.Length
      invariant forall i :: 0 <= i < items.Length ==>
        items[i] == if Rank(keys, i) < idx then was[i].(followersRank := Rank(keys, i)) else was[i]
    {
      OrderAt(keys, idx);
      OnlyOneAt(keys, order[idx], idx);
      items[order[idx]] := items[order[idx]].(followersRank := idx);
      idx := idx + 1;
    }
    forall i | 0 <= i < items.Length ensures Rank(keys, i) < idx {
      RankRange(keys, i);
    }
  }

  method RankStars(items: array<User>)
    modifies items
    ensures forall i :: 0 <= i < items.Length ==>
      items[i] == old(items[i]).(starsRank := Rank(StarKeys(old(items[..])), i))
  {
    ghost var was := items[..];
    var keys := StarKeys(items[..]);
    var order := Order(keys);
    OrderIsStable(keys);
    var idx := 0;
    while idx < items.Length
      invariant idx <= items.Length
      invariant forall i :: 0 <= i < items.Length ==>
        items[i] == if Rank(keys, i) < idx then was[i].(starsRank := Rank(keys, i)) else was[i]
    {
      OrderAt(keys, idx);
      OnlyOneAt(keys, order[idx], idx);
      items[order[idx]] := items[order[idx]].(starsRank := idx);
      idx := idx + 1;
    }
    forall i | 0 <= i < items.Length ensures Rank(keys, i) < idx {
      RankRange(keys, i);
    }
  }

  method ComputeScores(items: array<User>, alpha: real) returns (scores: seq<real>)
    modifies items
    ensures |scores| == items.Length
    ensures forall i :: 0 <= i < items.Length ==>
      scores[i] == Score(old(items[i]).followersRank, old(items[i]).starsRank, items.Length, alpha)
      && items[i] == old(items[i]).(score := scores[i])
  {
    scores := [];
    var i := 0;
    while i < items.Length
      invariant i <= items.Length && |scores| == i
      invariant forall k :: 0 <= k < i ==>
        scores[k] == Score(old(items[k]).followersRank, old(items[k]).starsRank, items.Length, alpha)
        && items[k] == old(items[k]).(score := scores[k])
      invariant forall k :: i <= k < items.Length ==> items[k] == old(items[k])
    {
      var score := Score(items[i].followersRank, items[i].starsRank, items.Length, alpha);
      items[i] := items[i].(score := score);
      scores := scores + [score];
      i := i + 1;
    }
  }

  /** `_rank_and_score`, on the list of the candidates. */
  method RankAndScore(items: array<User>, alpha: real)
    modifies items
    ensures |Positions(old(items[..]), alpha)| == items.Length
    ensures forall k :: 0 <= k < items.Length ==>
      Positions(old(items[..]), alpha)[k] < items.Length
      && items[k] == Scored(old(items[..]), alpha, Positions(old(items[..]), alpha)[k])
  {
    ghost var was := items[..];
    RankFollowers(items);
    assert StarKeys(items[..]) == StarKeys(was);
    RankStars(items);
    var scores := ComputeScores(items, alpha);
    assert scores == Scores(was, alpha);
    OrderIsStable(scores);
    Rearrange(items, Order(scores));
  }

  // ---- What the ranking promises ----

  function AheadInFollowers(users: seq<User>, i: nat): set<nat>
    requires i < |users|
  {
    set j | 0 <= j < |users|
      && (users[j].followers > users[i].followers || (users[j].followers == users[i].followers && j < i))
  }

  function AheadInStars(users: seq<User>, i: nat): set<nat>
    requires i < |users|
  {
    set j | 0 <= j < |users| && (users[j].stars > users[i].stars || (users[j].stars == users[i].stars && j < i))
  }

  /** A user's ranks are the numbers of users ahead on each axis, and its score
      is one less those shares of all users, weighted by alpha. */
  lemma ScoredIs(users: seq<User>, alpha: real, i: nat)
    requires i < |users|
    ensures var f, t, n := |AheadInFollowers(users, i)|, |AheadInStars(users, i)|, |users| as real;
      && Scored(users, alpha, i).followersRank == f && Scored(users, alpha, i).starsRank == t
      && Scored(users, alpha, i).score == alpha * (1.0 - f as real / n) + (1.0 - alpha) * (1.0 - t as real / n)
      && Scored(users, alpha, i).login == users[i].login
  {
    CountAheadIs(FollowerKeys(users), i, |users|);
    CountAheadIs(StarKeys(users), i, |users|);
    assert Ahead(FollowerKeys(users), i, |users|) == AheadInFollowers(users, i);
    assert Ahead(StarKeys(users), i, |users|) == AheadInStars(users, i);
  }

  ghost predicate IsOnly(keys: seq<real>, i: nat, k: nat) {
    i < |keys| && forall j: nat :: j < |keys| ==> (Rank(keys, j) == k <==> j == i)
  }

  /** Exactly one user has rank `k`. */
  ghost predicate OneAt(keys: seq<real>, k: nat) {
    exists i: nat :: IsOnly(keys, i, k)
  }

  lemma ExactlyOneAt(keys: seq<real>, k: nat)
    requires k < |keys|
    ensures OneAt(keys, k)
  {
    OrderAt(keys, k);
    var p := Order(keys)[k];
    OnlyOneAt(keys, p, k);
    assert IsOnly(keys, p, k);
  }

  /** Each axis gives out the ranks 0 to n - 1, each to exactly one user. */
  lemma RanksArePermutations(users: seq<User>, k: nat)
    requires k < |users|
    ensures forall i :: 0 <= i < |users| ==>
      Rank(FollowerKeys(users), i) < |users| && Rank(StarKeys(users), i) < |users|
    ensures OneAt(FollowerKeys(users), k) && OneAt(StarKeys(users), k)
  {
    var f, t := FollowerKeys(users), StarKeys(users);
    forall i | 0 <= i < |users| ensures Rank(f, i) < |users| && Rank(t, i) < |users| {
      RankRange(f, i);
      RankRange(t, i);
    }
    ExactlyOneAt(f, k);
    ExactlyOneAt(t, k);
  }

  ghost predicate StrictlyIncreasing(g: int -> int) {
    forall x, y :: x < y ==> g(x) < g(y)
  }

  function Rescaled(users: seq<User>, g: int -> int, h: int -> int): seq<User> {
    seq(|users|, i requires 0 <= i < |users| =>
      users[i].(followers := g(users[i].followers), stars := h(users[i].stars)))
  }

  lemma RescaledKeys(a: seq<real>, b: seq<real>, x: seq<int>, g: int -> int)
    requires |a| == |b| == |x| && StrictlyIncreasing(g)
    requires forall i :: 0 <= i < |x| ==> a[i] == x[i] as real && b[i] == g(x[i]) as real
    ensures forall i :: 0 <= i < |a| ==> Rank(a, i) == Rank(b, i)
  {
    forall i, j | 0 <= i < |a| && 0 <= j < |a| ensures Beats(a, j, i) <==> Beats(b, j, i) {
      assert x[i] < x[j] ==> g(x[i]) < g(x[j]);
      assert x[j] < x[i] ==> g(x[j]) < g(x[i]);
    }
    SameOrder(a, b);
  }

  /** Only the order on each axis counts: strictly increasing changes of scale
      leave ranks, scores and the final order as they were. */
  lemma OrderIgnoresScale(users: seq<User>, alpha: real, g: int -> int, h: int -> int)
    requires StrictlyIncreasing(g) && StrictlyIncreasing(h)
    ensures Scores(Rescaled(users, g, h), alpha) == Scores(users, alpha)
    ensures Positions(Rescaled(users, g, h), alpha) == Positions(users, alpha)
  {
    var other := Rescaled(users, g, h);
    RescaledKeys(FollowerKeys(users), FollowerKeys(other),
                 seq(|users|, i requires 0 <= i < |users| => users[i].followers), g);
    RescaledKeys(StarKeys(users), StarKeys(other),
                 seq(|users|, i requires 0 <= i < |users| => users[i].stars), h);
    assert Scores(other, alpha) == Scores(users, alpha);
  }

  lemma WeightedOrder(a: real, b: real, p: real, q: real, x: real, y: real)
    requires a >= 0.0 && b >= 0.0 && a + b > 0.0 && p > q && x > y
    ensures a * p + b * x > a * q + b * y
  {
    ScaledOrder(a, p, q);
    ScaledOrder(b, x, y);
  }

  lemma MixOrder(a: real, b: real, p: real, q: real, x: real, y: real)
    requires a >= 0.0 && b >= 0.0 && a + b > 0.0 && p > q && x > y
    ensures Mix(a, b, p, x) > Mix(a, b, q, y)
  {
    WeightedOrder(a, b, p, q, x, y);
    assert Mix(a, b, p, x) == a * p + b * x;
    assert Mix(a, b, q, y) == a * q + b * y;
  }

  lemma NormOrder(a: nat, b: nat, n: nat)
    requires a < b && n > 0
    ensures Norm(a, n) > Norm(b, n)
  {
    assert (b - a) as real / n as real > 0.0;
    assert b as real / n as real - a as real / n as real == (b as real - a as real) / n as real;
  }

  lemma BetterRanksBetterScore(a: nat, b: nat, c: nat, d: nat, n: nat, alpha: real)
    requires a < b && c < d && n > 0 && 0.0 <= alpha <= 1.0
    ensures Score(a, c, n, alpha) > Score(b, d, n, alpha)
  {
    NormOrder(a, b, n);
    NormOrder(c, d, n);
    MixOrder(alpha, 1.0 - alpha, Norm(a, n), Norm(b, n), Norm(c, n), Norm(d, n));
  }

  /** A user strictly ahead on both axes comes strictly earlier in the list. */
  lemma AheadOnBothComesEarlier(users: seq<User>, alpha: real, i: nat, j: nat)
    requires i < |users| && j < |users| && 0.0 <= alpha <= 1.0
    requires users[i].followers > users[j].followers && users[i].stars > users[j].stars
    ensures var scores := Scores(users, alpha);
      && Rank(scores, i) < Rank(scores, j) < |users|
      && Positions(users, alpha)[Rank(scores, i)] == i && Positions(users, alpha)[Rank(scores, j)] == j
  {
    var f, t, scores := FollowerKeys(users), StarKeys(users), Scores(users, alpha);
    RankOrder(f, i, j);
    RankOrder(t, i, j);
    BetterRanksBetterScore(Rank(f, i), Rank(f, j), Rank(t, i), Rank(t, j), |users|, alpha);
    RankOrder(scores, i, j);
    OrderHas(scores, i);
    OrderHas(scores, j);
  }

  lemma FollowersDecide(users: seq<User>, i: nat, j: nat)
    requires i < |users| && j < |users|
    ensures Beats(Scores(users, 1.0), j, i) <==> Beats(FollowerKeys(users), j, i)
  {
    var f, n := FollowerKeys(users), |users|;
    RankOrder(f, i, j);
    RankOrder(f, j, i);
    if Rank(f, i) < Rank(f, j) {
      NormOrder(Rank(f, i), Rank(f, j), n);
    } else if Rank(f, j) < Rank(f, i) {
      NormOrder(Rank(f, j), Rank(f, i), n);
    }
  }

  /** With alpha = 1 the stars do not matter: the list is the followers' list. */
  lemma AlphaOneIsFollowers(users: seq<User>)
    ensures Positions(users, 1.0) == Order(FollowerKeys(users))
  {
    forall i, j | 0 <= i < |users| && 0 <= j < |users|
      ensures Beats(Scores(users, 1.0), j, i) <==> Beats(FollowerKeys(users), j, i)
    {
      FollowersDecide(users, i, j);
    }
    SameOrder(Scores(users, 1.0), FollowerKeys(users));
  }
}
