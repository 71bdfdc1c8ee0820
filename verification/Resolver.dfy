/**
  Identity resolution: blocking, pair scoring and the pair loop.

  Absent text and empty text are both written "": the program only ever tests
  whether a text is truthy.  The regex and Unicode normalisers are parameters.
 */
module Resolver {
  import JaroWinkler
  import opened Basics

  datatype Profile = Profile(
    id: string,
    githubUsername: string, huggingfaceUsername: string,
    emailHint: string, displayName: string, location: string, company: string,
    avatarUrl: string, website: string,
    ghEmail: string, ghTwitter: string, ghWebsite: string, ghAvatar: string,
    ghName: string, ghLocation: string, ghCompany: string,
    hfGithubUsername: string, hfTwitter: string, hfWebsite: string,
    hfFullname: string, hfLinkedin: string, linkedinUrl: string)

  /** The text normalisers, left uninterpreted; each is applied to truthy text. */
  datatype Normalisers = Normalisers(
    strip: string -> string, lower: string -> string,
    twitter: string -> string, linkedin: string -> string,
    name: string -> string, place: string -> string, company: string -> string,
    gravatar: string -> string)

  // ---- Normalised views of a profile ----

  function Or(a: string, b: string): string {
    if a != "" then a else b
  }

  function Apply(f: string -> string, s: string): string {
    if s == "" then "" else f(s)
  }

  const NO_REPLY := "@users.noreply.github.com"

  predicate EndsWith(s: string, suffix: string) {
    |suffix| <= |s| && s[|s| - |suffix|..] == suffix
  }

  function Email(n: Normalisers, raw: string): seq<string> {
    if '@' !in raw then []
    else
      var e := n.lower(n.strip(raw));
      if EndsWith(e, NO_REPLY) then [] else [e]
  }

  function Emails(n: Normalisers, p: Profile): seq<string> {
    var a, b := Email(n, p.ghEmail), Email(n, p.emailHint);
    if a == b then a else a + b
  }

  function Twitter(n: Normalisers, p: Profile): string {
    Or(Apply(n.twitter, p.ghTwitter), Apply(n.twitter, p.hfTwitter))
  }

  function Linkedin(n: Normalisers, p: Profile): string {
    Or(Apply(n.linkedin, p.linkedinUrl), Apply(n.linkedin, p.hfLinkedin))
  }

  function Name(n: Normalisers, p: Profile): string {
    var cleaned := Apply(n.name, Or(Or(p.displayName, p.ghName), p.hfFullname));
    if |cleaned| >= 3 then cleaned else ""
  }

  function Location(n: Normalisers, p: Profile): string {
    Apply(n.place, Or(p.location, p.ghLocation))
  }

  function Company(n: Normalisers, p: Profile): string {
    Apply(n.company, Or(p.company, p.ghCompany))
  }

  function Gravatar(n: Normalisers, p: Profile): string {
    Apply(n.gravatar, Or(p.ghAvatar, p.avatarUrl))
  }

  // ---- Scoring a pair ----

  datatype Signal =
    | HfGithubExact | EmailExact | TwitterExact | WebsiteCrossref | LinkedinUrlMatch
    | AvatarGravatarMatch | NameLocationExact | NameCompanyFuzzy | NameFuzzyAlone

  function Weight(s: Signal): real {
    match s
    case HfGithubExact => 1.0
    case EmailExact => 0.9
    case TwitterExact => 0.85
    case WebsiteCrossref => 0.8
    case LinkedinUrlMatch => 0.75
    case AvatarGravatarMatch => 0.7
    case NameLocationExact => 0.6
    case NameCompanyFuzzy => 0.55
    case NameFuzzyAlone => 0.3
  }

  const AUTO_MERGE_THRESHOLD: real := 0.7
  const REVIEW_THRESHOLD: real := 0.4
  const NAME_BLOCK_CAP: nat := 50

  function If(c: bool, s: Signal): seq<Signal> {
    if c then [s] else []
  }

  predicate Equal(a: string, b: string) {
    a != "" && b != "" && a == b
  }

  predicate ClaimsLogin(n: Normalisers, hf: Profile, gh: Profile) {
    hf.hfGithubUsername != "" && gh.githubUsername != "" &&
    n.lower(hf.hfGithubUsername) == n.lower(gh.githubUsername)
  }

  predicate SitePointsAt(n: Normalisers, site: string, p: Profile) {
    site != "" &&
    ((p.huggingfaceUsername != "" &&
      Contains(n.lower(site), "huggingface.co/" + n.lower(p.huggingfaceUsername))) ||
     (p.githubUsername != "" &&
      Contains(n.lower(site), "github.com/" + n.lower(p.githubUsername))))
  }

  predicate PointsAt(n: Normalisers, p: Profile, q: Profile) {
    SitePointsAt(n, p.ghWebsite, q) || SitePointsAt(n, p.website, q) || SitePointsAt(n, p.hfWebsite, q)
  }

  function NameSignals(n: Normalisers, p: Profile, q: Profile): seq<Signal> {
    var a, b := Name(n, p), Name(n, q);
    if a == "" || b == "" then []
    else if a == b && Equal(Location(n, p), Location(n, q)) then [NameLocationExact]
    else if JaroWinkler.Similarity(a, b) >= 0.9 && Equal(Company(n, p), Company(n, q)) then [NameCompanyFuzzy]
    else If(JaroWinkler.Similarity(a, b) >= 0.9, NameFuzzyAlone)
  }

  predicate ShareEmail(n: Normalisers, p: Profile, q: Profile) {
    exists e :: e in Emails(n, p) && e in Emails(n, q)
  }

  function HandleSignals(n: Normalisers, p: Profile, q: Profile): seq<Signal> {
    If(ShareEmail(n, p, q), EmailExact) + If(Equal(Twitter(n, p), Twitter(n, q)), TwitterExact)
  }

  function WebSignals(n: Normalisers, p: Profile, q: Profile): seq<Signal> {
    If(PointsAt(n, p, q) || PointsAt(n, q, p), WebsiteCrossref)
    + If(Equal(Linkedin(n, p), Linkedin(n, q)), LinkedinUrlMatch)
    + If(Equal(Gravatar(n, p), Gravatar(n, q)), AvatarGravatarMatch)
  }

  function OtherSignals(n: Normalisers, p: Profile, q: Profile): seq<Signal> {
    HandleSignals(n, p, q) + WebSignals(n, p, q) + NameSignals(n, p, q)
  }

  function ScorePair(n: Normalisers, p: Profile, q: Profile): seq<Signal> {
    If(ClaimsLogin(n, p, q), HfGithubExact) + If(ClaimsLogin(n, q, p), HfGithubExact) + OtherSignals(n, p, q)
  }

  function MaxWeight(signals: seq<Signal>): (w: real)
    requires signals != []
    ensures forall s :: s in signals ==> Weight(s) <= w
    ensures exists s :: s in signals && Weight(s) == w
  {
    var last := signals[|signals| - 1];
    if |signals| == 1 then Weight(last)
    else
      var w := MaxWeight(signals[..|signals| - 1]);
      if w < Weight(last) then Weight(last) else w
  }

  datatype Verdict = NoSignal | BelowReview | Keep(score: real)

  function Judge(n: Normalisers, p: Profile, q: Profile): Verdict {
    var signals := ScorePair(n, p, q);
    if signals == [] then NoSignal
    else if MaxWeight(signals) < REVIEW_THRESHOLD then BelowReview
    else Keep(MaxWeight(signals))
  }

  lemma OtherSignalsAreSymmetric(n: Normalisers, p: Profile, q: Profile)
    ensures OtherSignals(n, p, q) == OtherSignals(n, q, p)
  {
    JaroWinkler.SimilarityIsSymmetric(Name(n, p), Name(n, q));
    assert NameSignals(n, p, q) == NameSignals(n, q, p);
    assert ShareEmail(n, p, q) == ShareEmail(n, q, p);
    assert Equal(Twitter(n, p), Twitter(n, q)) == Equal(Twitter(n, q), Twitter(n, p));
    assert Equal(Linkedin(n, p), Linkedin(n, q)) == Equal(Linkedin(n, q), Linkedin(n, p));
    assert Equal(Gravatar(n, p), Gravatar(n, q)) == Equal(Gravatar(n, q), Gravatar(n, p));
  }

  /** The verdict on a pair does not depend on which profile came first; for
      the name signals this is the symmetry of the Jaro-Winkler similarity. */
  lemma JudgeIsSymmetric(n: Normalisers, p: Profile, q: Profile)
    ensures Judge(n, p, q) == Judge(n, q, p)
  {
    OtherSignalsAreSymmetric(n, p, q);
    SwappedHeads(If(ClaimsLogin(n, p, q), HfGithubExact), If(ClaimsLogin(n, q, p), HfGithubExact),
                 OtherSignals(n, p, q));
  }

  lemma SwappedHeads(x: seq<Signal>, y: seq<Signal>, rest: seq<Signal>)
    ensures x + y + rest == [] <==> y + x + rest == []
    ensures x + y + rest != [] ==> MaxWeight(x + y + rest) == MaxWeight(y + x + rest)
  {
    var a, b := x + y + rest, y + x + rest;
    assert |a| == |b|;
    if a != [] {
      forall s ensures s in a <==> s in b {
        assert s in a <==> s in x || s in y || s in rest;
        assert s in b <==> s in y || s in x || s in rest;
      }
      var v, w := MaxWeight(a), MaxWeight(b);
      var s :| s in a && Weight(s) == v;
      assert s in b;
      var u :| u in b && Weight(u) == w;
      assert u in a;
    }
  }

  // ---- Strong matches ----

  predicate StrongMatch(n: Normalisers, p: Profile, q: Profile) {
    ShareEmail(n, p, q) || Equal(Twitter(n, p), Twitter(n, q)) || ClaimsLogin(n, p, q) || ClaimsLogin(n, q, p)
  }

  lemma StrongMatchSignal(n: Normalisers, p: Profile, q: Profile) returns (s: Signal)
    requires StrongMatch(n, p, q)
    ensures s in ScorePair(n, p, q) && Weight(s) >= 0.85
  {
    var a, b := If(ClaimsLogin(n, p, q), HfGithubExact), If(ClaimsLogin(n, q, p), HfGithubExact);
    var handles := HandleSignals(n, p, q);
    if ClaimsLogin(n, p, q) {
      s := a[0];
    } else if ClaimsLogin(n, q, p) {
      s := b[0];
    } else {
      s := handles[0];
    }
  }

  lemma StrongMatchScore(n: Normalisers, p: Profile, q: Profile)
    requires StrongMatch(n, p, q)
    ensures Judge(n, p, q).Keep? && Judge(n, p, q).score >= 0.85
  {
    var s := StrongMatchSignal(n, p, q);
  }

  // ---- Blocking ----

  datatype BlockKey =
    | EmailKey(email: string) | CrossrefKey(login: string) | TwitterKey(handle: string)
    | NameKey(name: string) | LinkedinKey(url: string)

  function Key(c: bool, k: BlockKey): seq<BlockKey> {
    if c then [k] else []
  }

  function EmailKeys(n: Normalisers, p: Profile): seq<BlockKey> {
    seq(|Emails(n, p)|, i requires 0 <= i < |Emails(n, p)| => EmailKey(Emails(n, p)[i]))
  }

  /** A login key may occur twice. */
  function HandleKeys(n: Normalisers, p: Profile): seq<BlockKey> {
    Key(p.hfGithubUsername != "", CrossrefKey(n.lower(p.hfGithubUsername)))
    + Key(p.githubUsername != "", CrossrefKey(n.lower(p.githubUsername)))
    + Key(Twitter(n, p) != "", TwitterKey(Twitter(n, p)))
  }

  function NameKeys(n: Normalisers, p: Profile): seq<BlockKey> {
    Key(Name(n, p) != "", NameKey(Name(n, p)))
  }

  function UrlKeys(n: Normalisers, p: Profile): seq<BlockKey> {
    var url := Or(p.linkedinUrl, p.hfLinkedin);
    Key(url != "", LinkedinKey(StripRight(n.lower(url), '/')))
  }

  /** The keys under which a profile is filed, in the order of the calls. */
  function KeyList(n: Normalisers, p: Profile): seq<BlockKey> {
    EmailKeys(n, p) + HandleKeys(n, p) + NameKeys(n, p) + UrlKeys(n, p)
  }

  /** Blocking works for any way of giving keys to profiles. */
  type Filing = Profile -> seq<BlockKey>

  function Keys(n: Normalisers): Filing {
    p => KeyList(n, p)
  }

  function Count(ks: seq<BlockKey>, key: BlockKey): (c: nat)
    ensures c > 0 <==> key in ks
  {
    if ks == [] then 0
    else Count(ks[..|ks| - 1], key) + (if ks[|ks| - 1] == key then 1 else 0)
  }

  function Copies(p: Profile, count: nat): (ps: seq<Profile>)
    ensures |ps| == count
    ensures forall q :: q in ps <==> count > 0 && q == p
  {
    if count == 0 then [] else Copies(p, count - 1) + [p]
  }

  /** The list the index holds under `key` once `ps` has been filed. */
  function Members(keys: Filing, ps: seq<Profile>, key: BlockKey): seq<Profile> {
    if ps == [] then []
    else
      var p := ps[|ps| - 1];
      Members(keys, ps[..|ps| - 1], key) + Copies(p, Count(keys(p), key))
  }

  predicate Capped(keys: Filing, ps: seq<Profile>, key: BlockKey) {
    key.NameKey? && |Members(keys, ps, key)| > NAME_BLOCK_CAP
  }

  /** The two profiles are filed under a common key that is not capped. */
  predicate Shares(keys: Filing, ps: seq<Profile>, p: Profile, q: Profile) {
    exists key :: key in keys(p) && key in keys(q) && !Capped(keys, ps, key)
  }

  predicate DistinctIds(ps: seq<Profile>) {
    forall i, j :: 0 <= i < j < |ps| ==> ps[i].id != ps[j].id
  }

  type Index = map<BlockKey, seq<Profile>>

  function Get(index: Index, key: BlockKey): seq<Profile> {
    if key in index then index[key] else []
  }

  lemma {:induction false} MembersAre(keys: Filing, ps: seq<Profile>, key: BlockKey, p: Profile)
    ensures p in Members(keys, ps, key) <==> p in ps && key in keys(p)
  {
    if ps == [] {
    } else {
      var init, last := ps[..|ps| - 1], ps[|ps| - 1];
      MembersAre(keys, init, key, p);
      assert ps == init + [last];
    }
  }

  /** The index after filing `p` under the keys `ks`. */
  ghost predicate Filed(before: Index, after: Index, p: Profile, ks: seq<BlockKey>) {
    forall key :: Get(after, key) == Get(before, key) + Copies(p, Count(ks, key))
  }

  lemma FiledOnceMoreAt(before: Index, index: Index, p: Profile, ks: seq<BlockKey>, k: BlockKey, key: BlockKey)
    requires Get(index, key) == Get(before, key) + Copies(p, Count(ks, key))
    ensures Get(index[k := Get(index, k) + [p]], key) == Get(before, key) + Copies(p, Count(ks + [k], key))
  {
    assert (ks + [k])[..|ks|] == ks;
    assert Count(ks + [k], key) == Count(ks, key) + (if k == key then 1 else 0);
    if k == key {
      var copies := Copies(p, Count(ks, key));
      assert (Get(before, key) + copies) + [p] == Get(before, key) + (copies + [p]);
    }
  }

  lemma FiledOnceMore(before: Index, index: Index, p: Profile, ks: seq<BlockKey>, k: BlockKey)
    requires Filed(before, index, p, ks)
    ensures Filed(before, index[k := Get(index, k) + [p]], p, ks + [k])
  {
    forall key {
      FiledOnceMoreAt(before, index, p, ks, k, key);
    }
  }

  /** Filing every profile under its keys. */
  method BuildIndex(keys: Filing, profiles: seq<Profile>) returns (index: Index)
    ensures forall key :: Get(index, key) == Members(keys, profiles, key)
  {
    index := map[];
    for i := 0 to |profiles|
      invariant forall key :: Get(index, key) == Members(keys, profiles[..i], key)
    {
      var p := profiles[i];
      index := AddToBlocks(index, keys(p), p);
      assert profiles[..i + 1][..i] == profiles[..i];
      forall key ensures Get(index, key) == Members(keys, profiles[..i + 1], key) {
        assert Members(keys, profiles[..i + 1], key)
            == Members(keys, profiles[..i], key) + Copies(p, Count(keys(p), key));
      }
    }
    assert profiles[..|profiles|] == profiles;
  }

  method AddToBlocks(before: Index, ks: seq<BlockKey>, p: Profile) returns (index: Index)
    ensures Filed(before, index, p, ks)
  {
    index := before;
    for m := 0 to |ks|
      invariant Filed(before, index, p, ks[..m])
    {
      FiledOnceMore(before, index, p, ks[..m], ks[m]);
      index := index[ks[m] := Get(index, ks[m]) + [p]];
      assert ks[..m + 1] == ks[..m] + [ks[m]];
    }
    assert ks[..|ks|] == ks;
  }

  predicate HasId(ps: seq<Profile>, id: string) {
    exists p :: p in ps && p.id == id
  }

  /** The first profile of each id, in the order of the list. */
  function FirstOfEach(ps: seq<Profile>): (r: seq<Profile>)
    ensures |r| <= |ps|
  {
    if ps == [] then []
    else
      var init, last := ps[..|ps| - 1], ps[|ps| - 1];
      FirstOfEach(init) + if HasId(init, last.id) then [] else [last]
  }

  /** Every id once, with the same profiles when equal ids mean equal profiles. */
  lemma {:induction false} FirstOfEachIsDistinct(ps: seq<Profile>)
    requires forall p, q :: p in ps && q in ps && p.id == q.id ==> p == q
    ensures DistinctIds(FirstOfEach(ps)) && forall p :: p in FirstOfEach(ps) <==> p in ps
  {
    if ps == [] {
    } else {
      var init, last := ps[..|ps| - 1], ps[|ps| - 1];
      assert ps == init + [last];
      assert forall p :: p in init ==> p in ps;
      FirstOfEachIsDistinct(init);
      if HasId(init, last.id) {
        assert last in init;
      }
    }
  }

  /** Keep the first profile of each id. */
  method Deduplicate(members: seq<Profile>) returns (unique: seq<Profile>)
    ensures unique == FirstOfEach(members)
  {
    var seen: set<string> := {};
    unique := [];
    for i := 0 to |members|
      invariant unique == FirstOfEach(members[..i])
      invariant forall id :: id in seen <==> HasId(members[..i], id)
    {
      var m := members[i];
      assert members[..i + 1] == members[..i] + [m] && members[..i + 1][..i] == members[..i];
      forall id ensures HasId(members[..i + 1], id) <==> HasId(members[..i], id) || m.id == id {
        assert m in members[..i + 1];
      }
      if m.id !in seen {
        seen := seen + {m.id};
        unique := unique + [m];
      }
    }
    assert members[..|members|] == members;
  }

  predicate InOneBlock(blocks: seq<seq<Profile>>, p: Profile, q: Profile) {
    exists b :: b in blocks && p in b && q in b
  }

  /** What the block loop must have achieved for one key of the index. */
  ghost predicate Covered(blocks: seq<seq<Profile>>, members: seq<Profile>) {
    forall p, q :: p in members && q in members && p != q ==> InOneBlock(blocks, p, q)
  }

  ghost predicate IsBlock(keys: Filing, ps: seq<Profile>, b: seq<Profile>) {
    && DistinctIds(b)
    && exists key :: !Capped(keys, ps, key) && forall p :: p in b ==> p in ps && key in keys(p)
  }

  lemma MembersAreProfiles(keys: Filing, ps: seq<Profile>, key: BlockKey)
    requires DistinctIds(ps)
    ensures forall p :: p in Members(keys, ps, key) ==> p in ps && key in keys(p)
    ensures forall p, q :: p in Members(keys, ps, key) && q in Members(keys, ps, key) && p.id == q.id ==> p == q
  {
    forall p | p in Members(keys, ps, key) ensures p in ps && key in keys(p) {
      MembersAre(keys, ps, key, p);
    }
  }

  /** The block that an entry of the index adds, if any. */
  function NewBlock(keys: Filing, ps: seq<Profile>, key: BlockKey): seq<seq<Profile>> {
    var unique := FirstOfEach(Members(keys, ps, key));
    if Capped(keys, ps, key) || |unique| < 2 then [] else [unique]
  }

  lemma NewBlockIsBlock(keys: Filing, ps: seq<Profile>, key: BlockKey)
    requires DistinctIds(ps)
    ensures forall b :: b in NewBlock(keys, ps, key) ==> IsBlock(keys, ps, b)
  {
    var unique := FirstOfEach(Members(keys, ps, key));
    MembersAreProfiles(keys, ps, key);
    FirstOfEachIsDistinct(Members(keys, ps, key));
    if !Capped(keys, ps, key) {
      assert IsBlock(keys, ps, unique);
    }
  }

  lemma NewBlockCovers(keys: Filing, ps: seq<Profile>, key: BlockKey, before: seq<seq<Profile>>)
    requires DistinctIds(ps) && !Capped(keys, ps, key)
    ensures Covered(before + NewBlock(keys, ps, key), Members(keys, ps, key))
  {
    var members := Members(keys, ps, key);
    var unique, after := FirstOfEach(members), before + NewBlock(keys, ps, key);
    MembersAreProfiles(keys, ps, key);
    FirstOfEachIsDistinct(members);
    forall p, q | p in members && q in members && p != q ensures InOneBlock(after, p, q) {
      assert p in unique && q in unique;
      assert |unique| >= 2;
      assert unique in after;
    }
  }

  /** The body of the block loop, for one entry of the index. */
  method AddBlock(keys: Filing, ghost profiles: seq<Profile>, key: BlockKey, members: seq<Profile>,
                  before: seq<seq<Profile>>)
    returns (blocks: seq<seq<Profile>>)
    requires members == Members(keys, profiles, key)
    ensures blocks == before + NewBlock(keys, profiles, key)
  {
    blocks := before;
    if |members| >= 2 && !(key.NameKey? && |members| > NAME_BLOCK_CAP) {
      var unique := Deduplicate(members);
      if |unique| >= 2 {
        blocks := blocks + [unique];
      }
    }
  }

  method BuildBlocks(keys: Filing, profiles: seq<Profile>) returns (blocks: seq<seq<Profile>>)
    requires DistinctIds(profiles)
    ensures forall b :: b in blocks ==> IsBlock(keys, profiles, b)
    ensures forall p, q :: p in profiles && q in profiles && p != q && Shares(keys, profiles, p, q) ==>
              InOneBlock(blocks, p, q)
  {
    var index := BuildIndex(keys, profiles);
    blocks := [];
    var pending := index.Keys;
    while pending != {}
      invariant pending <= index.Keys
      invariant forall b :: b in blocks ==> IsBlock(keys, profiles, b)
      invariant forall key :: key in index && key !in pending && !Capped(keys, profiles, key) ==>
                  Covered(blocks, index[key])
      decreases pending
    {
      var key :| key in pending;
      pending := pending - {key};
      assert index[key] == Get(index, key);
      var after := AddBlock(keys, profiles, key, index[key], blocks);
      NewBlockIsBlock(keys, profiles, key);
      if !Capped(keys, profiles, key) {
        NewBlockCovers(keys, profiles, key, blocks);
      }
      forall k | k in index && k !in pending && k != key && !Capped(keys, profiles, k)
        ensures Covered(after, index[k])
      {
      }
      blocks := after;
    }
    forall p, q | p in profiles && q in profiles && p != q && Shares(keys, profiles, p, q)
      ensures InOneBlock(blocks, p, q)
    {
      var key :| key in keys(p) && key in keys(q) && !Capped(keys, profiles, key);
      MembersAre(keys, profiles, key, p);
      MembersAre(keys, profiles, key, q);
      assert p in Get(index, key);
      assert Covered(blocks, index[key]);
    }
  }
}
