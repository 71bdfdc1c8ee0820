/**
  The pair loop of the resolver: which pairs become merge candidates.
 */
module Candidates {
  import opened Basics
  import opened Resolver

  /** How profiles are filed into blocks, and how a pair is judged; the loop
      works for any filing and any judgement that ignores the order. */
  datatype Rules = Rules(keys: Filing, judge: (Profile, Profile) -> Verdict)

  ghost predicate Fair(r: Rules) {
    forall p, q :: r.judge(p, q) == r.judge(q, p)
  }

  function ResolverRules(n: Normalisers): Rules {
    Rules(Keys(n), (p, q) => Judge(n, p, q))
  }

  datatype Candidate = Candidate(source: string, target: string, score: real)

  /** The newer profile first: it is the one merged into the older. */
  type Pair = (Profile, Profile)

  function Ordered(p: Profile, q: Profile): Pair {
    if Less(p.id, q.id) then (q, p) else (p, q)
  }

  function CanonicalPair(a: string, b: string): (string, string) {
    if Less(a, b) then (b, a) else (a, b)
  }

  // ---- What the loop must produce ----

  predicate IsComparable(r: Rules, ps: seq<Profile>, pair: Pair) {
    && pair.0 in ps && pair.1 in ps
    && Less(pair.1.id, pair.0.id)
    && Shares(r.keys, ps, pair.0, pair.1)
  }

  function AllPairs(ps: seq<Profile>): set<Pair> {
    set p, q | p in ps && q in ps :: (p, q)
  }

  function Comparable(r: Rules, ps: seq<Profile>): set<Pair> {
    set pair | pair in AllPairs(ps) && IsComparable(r, ps, pair)
  }

  function Expected(r: Rules, ps: seq<Profile>): set<Candidate> {
    set pair | pair in Comparable(r, ps) && r.judge(pair.0, pair.1).Keep?
      :: Candidate(pair.0.id, pair.1.id, r.judge(pair.0, pair.1).score)
  }

  function BelowThreshold(r: Rules, ps: seq<Profile>): set<Pair> {
    set pair | pair in Comparable(r, ps) && r.judge(pair.0, pair.1).BelowReview?
  }

  // ---- The loop, in terms of the pairs it has scored so far ----

  function Kept(r: Rules, scored: seq<Pair>): seq<Candidate> {
    if scored == [] then []
    else
      var last := scored[|scored| - 1];
      var rest := Kept(r, scored[..|scored| - 1]);
      match r.judge(last.0, last.1)
      case Keep(score) => rest + [Candidate(last.0.id, last.1.id, score)]
      case _ => rest
  }

  function Skipped(r: Rules, scored: seq<Pair>): set<Pair> {
    set pair | pair in scored && r.judge(pair.0, pair.1).BelowReview?
  }

  ghost predicate NoRepeats<T>(xs: seq<T>) {
    forall i, j :: 0 <= i < j < |xs| ==> xs[i] != xs[j]
  }

  /** The state of the loop after scoring the pairs in `scored`. */
  ghost predicate LoopState(r: Rules, ps: seq<Profile>, scored: seq<Pair>, seen: set<(string, string)>,
                            candidates: seq<Candidate>, skipped: nat)
  {
    && NoRepeats(scored)
    && (forall pair :: pair in scored ==> IsComparable(r, ps, pair))
    && (forall k :: k in seen <==> exists pair :: pair in scored && k == (pair.0.id, pair.1.id))
    && candidates == Kept(r, scored)
    && skipped == |Skipped(r, scored)|
  }

  lemma OrderedIsComparable(r: Rules, ps: seq<Profile>, p: Profile, q: Profile)
    requires p in ps && q in ps && p.id != q.id && Shares(r.keys, ps, p, q)
    ensures IsComparable(r, ps, Ordered(p, q))
    ensures CanonicalPair(p.id, q.id) == (Ordered(p, q).0.id, Ordered(p, q).1.id)
  {
    LessIsTotal(p.id, q.id);
    var key :| key in r.keys(p) && key in r.keys(q) && !Capped(r.keys, ps, key);
    var pair := Ordered(p, q);
    assert key in r.keys(pair.0) && key in r.keys(pair.1);
  }

  lemma OneMoreScored(r: Rules, scored: seq<Pair>, pair: Pair)
    requires NoRepeats(scored) && pair !in scored
    ensures NoRepeats(scored + [pair])
    ensures Kept(r, scored + [pair]) ==
            if r.judge(pair.0, pair.1).Keep?
            then Kept(r, scored) + [Candidate(pair.0.id, pair.1.id, r.judge(pair.0, pair.1).score)]
            else Kept(r, scored)
    ensures |Skipped(r, scored + [pair])| ==
            |Skipped(r, scored)| + (if r.judge(pair.0, pair.1).BelowReview? then 1 else 0)
  {
    var after := scored + [pair];
    assert after[..|after| - 1] == scored;
    assert forall x :: x in after <==> x in scored || x == pair;
    assert Skipped(r, after) ==
           if r.judge(pair.0, pair.1).BelowReview? then Skipped(r, scored) + {pair} else Skipped(r, scored);
  }

  /** One pass through the body of the inner loop. */
  method Visit(r: Rules, ps: seq<Profile>, p1: Profile, p2: Profile, ghost scored0: seq<Pair>,
               seen0: set<(string, string)>, candidates0: seq<Candidate>, skipped0: nat)
    returns (ghost scored: seq<Pair>, seen: set<(string, string)>, candidates: seq<Candidate>, skipped: nat)
    requires Fair(r) && DistinctIds(ps) && p1 in ps && p2 in ps && p1.id != p2.id
    requires Shares(r.keys, ps, p1, p2)
    requires LoopState(r, ps, scored0, seen0, candidates0, skipped0)
    ensures LoopState(r, ps, scored, seen, candidates, skipped)
    ensures scored0 <= scored && Ordered(p1, p2) in scored
  {
    scored, seen, candidates, skipped := scored0, seen0, candidates0, skipped0;
    var pairKey := CanonicalPair(p1.id, p2.id);
    ghost var pair := Ordered(p1, p2);
    OrderedIsComparable(r, ps, p1, p2);
    if pairKey in seen {
      return;
    }
    seen := seen + {pairKey};
    scored := scored + [pair];
    OneMoreScored(r, scored0, pair);
    assert r.judge(pair.0, pair.1) == r.judge(p1, p2);
    var verdict := r.judge(p1, p2);
    if verdict.BelowReview? {
      skipped := skipped + 1;
    } else if verdict.Keep? {
      candidates := candidates + [Candidate(pairKey.0, pairKey.1, verdict.score)];
    }
    assert forall x :: x in scored <==> x in scored0 || x == pair;
    assert pair in scored;
  }

  ghost predicate Done(b: seq<Profile>, scored: seq<Pair>, i: nat, j: nat) {
    forall k, l :: 0 <= k < l < |b| && (k < i || (k == i && l < j)) ==> Ordered(b[k], b[l]) in scored
  }

  lemma RowDone(b: seq<Profile>, before: seq<Pair>, after: seq<Pair>, i: nat, j: nat)
    requires Done(b, before, i, j) && before <= after && i < j < |b|
    requires Ordered(b[i], b[j]) in after
    ensures Done(b, after, i, j + 1)
  {
  }

  /** The innermost loop, over the profiles after position `i` of a block. */
  method ScoreRow(r: Rules, ps: seq<Profile>, block: seq<Profile>, i: nat, ghost scored0: seq<Pair>,
                  seen0: set<(string, string)>, candidates0: seq<Candidate>, skipped0: nat)
    returns (ghost scored: seq<Pair>, seen: set<(string, string)>, candidates: seq<Candidate>, skipped: nat)
    requires Fair(r) && DistinctIds(ps) && IsBlock(r.keys, ps, block) && i < |block|
    requires LoopState(r, ps, scored0, seen0, candidates0, skipped0) && Done(block, scored0, i, 0)
    ensures LoopState(r, ps, scored, seen, candidates, skipped)
    ensures scored0 <= scored && Done(block, scored, i + 1, 0)
  {
    scored, seen, candidates, skipped := scored0, seen0, candidates0, skipped0;
    for j := i + 1 to |block|
      invariant LoopState(r, ps, scored, seen, candidates, skipped)
      invariant scored0 <= scored && Done(block, scored, i, j)
    {
      ghost var before := scored;
      scored, seen, candidates, skipped :=
        Visit(r, ps, block[i], block[j], scored, seen, candidates, skipped);
      RowDone(block, before, scored, i, j);
    }
  }

  /** The two inner loops, over one block. */
  method ScoreBlock(r: Rules, ps: seq<Profile>, block: seq<Profile>, ghost scored0: seq<Pair>,
                    seen0: set<(string, string)>, candidates0: seq<Candidate>, skipped0: nat)
    returns (ghost scored: seq<Pair>, seen: set<(string, string)>, candidates: seq<Candidate>, skipped: nat)
    requires Fair(r) && DistinctIds(ps) && IsBlock(r.keys, ps, block)
    requires LoopState(r, ps, scored0, seen0, candidates0, skipped0)
    ensures LoopState(r, ps, scored, seen, candidates, skipped)
    ensures scored0 <= scored && Done(block, scored, |block|, 0)
  {
    scored, seen, candidates, skipped := scored0, seen0, candidates0, skipped0;
    for i := 0 to |block|
      invariant LoopState(r, ps, scored, seen, candidates, skipped)
      invariant scored0 <= scored && Done(block, scored, i, 0)
    {
      scored, seen, candidates, skipped :=
        ScoreRow(r, ps, block, i, scored, seen, candidates, skipped);
    }
  }

  ghost predicate BlocksDone(blocks: seq<seq<Profile>>, m: nat, scored: seq<Pair>)
    requires m <= |blocks|
  {
    forall k :: 0 <= k < m ==> Done(blocks[k], scored, |blocks[k]|, 0)
  }

  lemma BlocksStillDone(blocks: seq<seq<Profile>>, m: nat, before: seq<Pair>, after: seq<Pair>)
    requires m < |blocks| && BlocksDone(blocks, m, before) && before <= after
    requires Done(blocks[m], after, |blocks[m]|, 0)
    ensures BlocksDone(blocks, m + 1, after)
  {
    assert forall k :: 0 <= k < m ==> Done(blocks[k], after, |blocks[k]|, 0);
  }

  /** The nested loops over all blocks. */
  method ScoreBlocks(r: Rules, ps: seq<Profile>, blocks: seq<seq<Profile>>)
    returns (candidates: seq<Candidate>, skipped: nat, ghost scored: seq<Pair>, seen: set<(string, string)>)
    requires Fair(r) && DistinctIds(ps)
    requires forall k :: 0 <= k < |blocks| ==> IsBlock(r.keys, ps, blocks[k])
    ensures LoopState(r, ps, scored, seen, candidates, skipped) && BlocksDone(blocks, |blocks|, scored)
  {
    candidates, skipped, scored, seen := [], 0, [], {};
    for m := 0 to |blocks|
      invariant LoopState(r, ps, scored, seen, candidates, skipped)
      invariant BlocksDone(blocks, m, scored)
    {
      ghost var before := scored;
      scored, seen, candidates, skipped :=
        ScoreBlock(r, ps, blocks[m], scored, seen, candidates, skipped);
      BlocksStillDone(blocks, m, before, scored);
    }
  }

  method FindCandidates(r: Rules, profiles: seq<Profile>)
    returns (candidates: seq<Candidate>, skipped: nat, ghost scored: seq<Pair>)
    requires Fair(r) && DistinctIds(profiles)
    ensures NoRepeats(scored) && (forall pair :: pair in scored <==> pair in Comparable(r, profiles))
    ensures (set c | c in candidates) == Expected(r, profiles)
    ensures |candidates| == |Expected(r, profiles)|
    ensures skipped == |BelowThreshold(r, profiles)|
  {
    var blocks := BuildBlocks(r.keys, profiles);
    var seen;
    candidates, skipped, scored, seen := ScoreBlocks(r, profiles, blocks);
    ComparableAreDone(r, profiles, blocks, scored);
    Collected(r, profiles, scored);
  }

  /** The resolver's scoring pass over the profiles it loaded. */
  method Run(n: Normalisers, profiles: seq<Profile>) returns (candidates: seq<Candidate>, skipped: nat)
    requires DistinctIds(profiles)
    ensures (set c | c in candidates) == Expected(ResolverRules(n), profiles)
    ensures |candidates| == |Expected(ResolverRules(n), profiles)|
    ensures skipped == |BelowThreshold(ResolverRules(n), profiles)|
  {
    var r := ResolverRules(n);
    if |profiles| < 2 {
      NothingToCompare(r, profiles);
      return [], 0;
    }
    forall p, q ensures r.judge(p, q) == r.judge(q, p) {
      JudgeIsSymmetric(n, p, q);
    }
    ghost var scored;
    candidates, skipped, scored := FindCandidates(r, profiles);
  }

  lemma NothingToCompare(r: Rules, ps: seq<Profile>)
    requires |ps| < 2
    ensures Expected(r, ps) == {} && BelowThreshold(r, ps) == {}
  {
    forall pair ensures pair !in Comparable(r, ps) {
      if pair.0 == pair.1 && Less(pair.1.id, pair.0.id) {
        LessIsAsymmetric(pair.1.id, pair.0.id);
      }
    }
  }

  lemma ComparableAreDone(r: Rules, ps: seq<Profile>, blocks: seq<seq<Profile>>, scored: seq<Pair>)
    requires forall p, q :: p in ps && q in ps && p != q && Shares(r.keys, ps, p, q) ==> InOneBlock(blocks, p, q)
    requires BlocksDone(blocks, |blocks|, scored)
    ensures forall pair :: IsComparable(r, ps, pair) ==> pair in scored
  {
    forall pair | IsComparable(r, ps, pair) ensures pair in scored {
      LessIsAsymmetric(pair.1.id, pair.0.id);
      assert InOneBlock(blocks, pair.0, pair.1);
      ComparableIsDone(blocks, scored, pair);
    }
  }

  lemma ComparableIsDone(blocks: seq<seq<Profile>>, scored: seq<Pair>, pair: Pair)
    requires InOneBlock(blocks, pair.0, pair.1) && Less(pair.1.id, pair.0.id)
    requires BlocksDone(blocks, |blocks|, scored)
    ensures pair in scored
  {
    LessIsAsymmetric(pair.1.id, pair.0.id);
    var b :| b in blocks && pair.0 in b && pair.1 in b;
    var m :| 0 <= m < |blocks| && blocks[m] == b;
    assert Done(blocks[m], scored, |blocks[m]|, 0);
    var k :| 0 <= k < |b| && b[k] == pair.0;
    var l :| 0 <= l < |b| && b[l] == pair.1;
    assert Ordered(b[k], b[l]) == pair == Ordered(b[l], b[k]);
    assert if k < l then Ordered(b[k], b[l]) in scored else Ordered(b[l], b[k]) in scored;
  }

  lemma {:induction false} KeptAre(r: Rules, scored: seq<Pair>, c: Candidate)
    ensures c in Kept(r, scored) <==>
            exists pair :: pair in scored && r.judge(pair.0, pair.1).Keep?
              && c == Candidate(pair.0.id, pair.1.id, r.judge(pair.0, pair.1).score)
  {
    if scored == [] {
    } else {
      var init, last := scored[..|scored| - 1], scored[|scored| - 1];
      KeptAre(r, init, c);
      assert scored == init + [last];
      assert forall pair :: pair in scored <==> pair in init || pair == last;
    }
  }

  lemma {:induction false} KeptAreDistinct(r: Rules, ps: seq<Profile>, scored: seq<Pair>)
    requires DistinctIds(ps) && NoRepeats(scored) && forall pair :: pair in scored ==> pair.0 in ps && pair.1 in ps
    ensures |set c | c in Kept(r, scored)| == |Kept(r, scored)|
  {
    if scored == [] {
    } else {
      var init, last := scored[..|scored| - 1], scored[|scored| - 1];
      assert scored == init + [last];
      KeptAreDistinct(r, ps, init);
      var v := r.judge(last.0, last.1);
      if v.Keep? {
        var c := Candidate(last.0.id, last.1.id, v.score);
        KeptAre(r, init, c);
        assert c !in Kept(r, init);
        assert (set x | x in Kept(r, scored)) == (set x | x in Kept(r, init)) + {c};
      }
    }
  }

  lemma Collected(r: Rules, ps: seq<Profile>, scored: seq<Pair>)
    requires DistinctIds(ps) && NoRepeats(scored)
    requires forall pair :: pair in scored <==> IsComparable(r, ps, pair)
    ensures forall pair :: pair in scored <==> pair in Comparable(r, ps)
    ensures (set c | c in Kept(r, scored)) == Expected(r, ps)
    ensures |Kept(r, scored)| == |Expected(r, ps)|
    ensures Skipped(r, scored) == BelowThreshold(r, ps)
  {
    forall c ensures c in Kept(r, scored) <==> c in Expected(r, ps) {
      KeptAre(r, scored, c);
    }
    KeptAreDistinct(r, ps, scored);
  }

  // ---- The outcome does not depend on the order in which profiles are loaded ----

  function Multiplicity(keys: Filing, p: Profile, key: BlockKey): nat {
    Count(keys(p), key)
  }

  lemma WithoutThenInit<T>(xs: seq<T>, i: nat)
    requires i < |xs| - 1
    ensures var rest := xs[..i] + xs[i + 1..]; var init := xs[..|xs| - 1];
      |rest| == |xs| - 1 && rest[|rest| - 1] == xs[|xs| - 1] && rest[..|rest| - 1] == init[..i] + init[i + 1..]
  {
  }

  lemma {:induction false} MembersWithout(keys: Filing, ps: seq<Profile>, i: nat, key: BlockKey)
    requires i < |ps|
    ensures |Members(keys, ps, key)| == |Members(keys, ps[..i] + ps[i + 1..], key)| + Multiplicity(keys, ps[i], key)
  {
    var n := |ps| - 1;
    if i == n {
      assert ps[..i] + ps[i + 1..] == ps[..n];
    } else {
      MembersWithout(keys, ps[..n], i, key);
      WithoutThenInit(ps, i);
    }
  }

  lemma WithoutOne<T>(xs: seq<T>, i: nat)
    requires i < |xs|
    ensures multiset(xs) == multiset(xs[..i] + xs[i + 1..]) + multiset{xs[i]}
  {
    assert xs == xs[..i] + [xs[i]] + xs[i + 1..];
  }

  /** The size of a block list depends on the profiles only, not their order. */
  lemma {:induction false} MembersPermute(keys: Filing, ps: seq<Profile>, qs: seq<Profile>, key: BlockKey)
    requires multiset(ps) == multiset(qs)
    ensures |Members(keys, ps, key)| == |Members(keys, qs, key)|
  {
    if ps == [] {
      assert |multiset(qs)| == 0;
    } else {
      var n := |ps| - 1;
      assert ps[n] in multiset(qs);
      var i :| 0 <= i < |qs| && qs[i] == ps[n];
      WithoutOne(ps, n);
      WithoutOne(qs, i);
      assert ps[..n] + ps[n + 1..] == ps[..n];
      assert multiset(ps[..n]) == multiset(ps) - multiset{ps[n]};
      assert multiset(qs[..i] + qs[i + 1..]) == multiset(qs) - multiset{ps[n]};
      MembersPermute(keys, ps[..n], qs[..i] + qs[i + 1..], key);
      MembersWithout(keys, qs, i, key);
      MembersWithout(keys, ps, n, key);
    }
  }

  /** Every permutation of the profiles yields the same candidates. */
  lemma OrderDoesNotMatter(r: Rules, ps: seq<Profile>, qs: seq<Profile>)
    requires multiset(ps) == multiset(qs)
    ensures Comparable(r, ps) == Comparable(r, qs)
    ensures Expected(r, ps) == Expected(r, qs)
    ensures BelowThreshold(r, ps) == BelowThreshold(r, qs)
  {
    forall p ensures p in ps <==> p in qs {
      assert p in ps <==> p in multiset(ps);
      assert p in qs <==> p in multiset(qs);
    }
    forall key ensures Capped(r.keys, ps, key) == Capped(r.keys, qs, key) {
      MembersPermute(r.keys, ps, qs, key);
    }
    forall pair: Pair ensures IsComparable(r, ps, pair) == IsComparable(r, qs, pair) {
      assert Shares(r.keys, ps, pair.0, pair.1) == Shares(r.keys, qs, pair.0, pair.1);
    }
  }

  // ---- Strong matches are never lost by blocking ----

  lemma StrongMatchShares(n: Normalisers, ps: seq<Profile>, p: Profile, q: Profile)
    requires StrongMatch(n, p, q)
    ensures Shares(Keys(n), ps, p, q)
  {
    var key := CommonKey(n, p, q);
    assert key in Keys(n)(p) && key in Keys(n)(q) && !Capped(Keys(n), ps, key);
  }

  lemma CommonKey(n: Normalisers, p: Profile, q: Profile) returns (key: BlockKey)
    requires StrongMatch(n, p, q)
    ensures key in KeyList(n, p) && key in KeyList(n, q) && !key.NameKey?
  {
    if ShareEmail(n, p, q) {
      var e :| e in Emails(n, p) && e in Emails(n, q);
      key := EmailKey(e);
      EmailIsAKey(n, p, e);
      EmailIsAKey(n, q, e);
    } else if Equal(Twitter(n, p), Twitter(n, q)) {
      key := TwitterKey(Twitter(n, p));
    } else if ClaimsLogin(n, p, q) {
      key := CrossrefKey(n.lower(p.hfGithubUsername));
    } else {
      key := CrossrefKey(n.lower(q.hfGithubUsername));
    }
  }

  lemma EmailIsAKey(n: Normalisers, p: Profile, e: string)
    requires e in Emails(n, p)
    ensures EmailKey(e) in KeyList(n, p)
  {
    var i :| 0 <= i < |Emails(n, p)| && Emails(n, p)[i] == e;
    assert EmailKeys(n, p)[i] == EmailKey(e);
    assert KeyList(n, p)[i] == EmailKeys(n, p)[i];
  }

  lemma KeptPairIsExpected(r: Rules, ps: seq<Profile>, p: Profile, q: Profile)
    requires p in ps && q in ps && Less(q.id, p.id) && Shares(r.keys, ps, p, q) && r.judge(p, q).Keep?
    ensures Candidate(p.id, q.id, r.judge(p, q).score) in Expected(r, ps)
  {
    var pair: Pair := (p, q);
    assert pair in Comparable(r, ps);
  }

  /** Every pair with an email, twitter or HF-to-GitHub match is a candidate,
      and scores high enough to be merged automatically. */
  lemma StrongMatchesAreFound(n: Normalisers, ps: seq<Profile>, p: Profile, q: Profile)
    requires p in ps && q in ps && Less(q.id, p.id) && StrongMatch(n, p, q)
    ensures exists c :: c in Expected(ResolverRules(n), ps)
              && c.source == p.id && c.target == q.id && c.score >= AUTO_MERGE_THRESHOLD
  {
    StrongMatchShares(n, ps, p, q);
    StrongMatchScore(n, p, q);
    KeptPairIsExpected(ResolverRules(n), ps, p, q);
  }
}
