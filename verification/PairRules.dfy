/**
  When the resolver compares two profiles, and with what score.
 */
module PairRules {
  import opened Basics
  import JaroWinkler
  import opened Resolver
  import opened Candidates

  // ---- What is read from the fields ----

  predicate IsEmailOf(n: Normalisers, raw: string, e: string) {
    '@' in raw && e == n.lower(n.strip(raw)) && !EndsWith(e, "@users.noreply.github.com")
  }

  lemma EmailsAre(n: Normalisers, p: Profile, e: string)
    ensures e in Emails(n, p) <==> IsEmailOf(n, p.ghEmail, e) || IsEmailOf(n, p.emailHint, e)
  {
  }

  /** The field that counts is the first one that is set; a handle or a
      LinkedIn name that is normalised to nothing lets the next field count,
      and a name of fewer than three characters is none. */
  lemma Views(n: Normalisers, p: Profile)
    ensures Twitter(n, p) ==
      if p.ghTwitter != "" && n.twitter(p.ghTwitter) != "" then n.twitter(p.ghTwitter)
      else if p.hfTwitter != "" then n.twitter(p.hfTwitter) else ""
    ensures Linkedin(n, p) ==
      if p.linkedinUrl != "" && n.linkedin(p.linkedinUrl) != "" then n.linkedin(p.linkedinUrl)
      else if p.hfLinkedin != "" then n.linkedin(p.hfLinkedin) else ""
    ensures var raw := if p.displayName != "" then p.displayName else if p.ghName != "" then p.ghName else p.hfFullname;
      Name(n, p) == if raw == "" || |n.name(raw)| < 3 then "" else n.name(raw)
    ensures var raw := if p.location != "" then p.location else p.ghLocation;
      Location(n, p) == if raw == "" then "" else n.place(raw)
    ensures var raw := if p.company != "" then p.company else p.ghCompany;
      Company(n, p) == if raw == "" then "" else n.company(raw)
    ensures var raw := if p.ghAvatar != "" then p.ghAvatar else p.avatarUrl;
      Gravatar(n, p) == if raw == "" then "" else n.gravatar(raw)
  {
  }

  // ---- The score ----

  predicate Same(a: string, b: string) {
    a != "" && a == b
  }

  /** One reports, on Hugging Face, the GitHub login of the other. */
  predicate SameLogin(n: Normalisers, p: Profile, q: Profile) {
    || (p.hfGithubUsername != "" && q.githubUsername != "" && n.lower(p.hfGithubUsername) == n.lower(q.githubUsername))
    || (q.hfGithubUsername != "" && p.githubUsername != "" && n.lower(q.hfGithubUsername) == n.lower(p.githubUsername))
  }

  /** The site names, in lower case, the page of the account on the host. */
  ghost predicate SiteNames(n: Normalisers, site: string, host: string, account: string) {
    site != "" && account != "" && exists i :: StandsAt(n.lower(site), host + n.lower(account), i)
  }

  /** A site of `p` names an account of `q`. */
  ghost predicate NamesAccount(n: Normalisers, p: Profile, q: Profile) {
    exists site | site in [p.ghWebsite, p.website, p.hfWebsite] ::
      || SiteNames(n, site, "huggingface.co/", q.huggingfaceUsername)
      || SiteNames(n, site, "github.com/", q.githubUsername)
  }

  predicate SimilarNames(n: Normalisers, p: Profile, q: Profile) {
    Name(n, p) != "" && Name(n, q) != "" && JaroWinkler.Similarity(Name(n, p), Name(n, q)) >= 0.9
  }

  lemma PointsAtIs(n: Normalisers, p: Profile, q: Profile)
    ensures PointsAt(n, p, q) <==> NamesAccount(n, p, q)
  {
    forall site ensures SitePointsAt(n, site, q) <==>
      || SiteNames(n, site, "huggingface.co/", q.huggingfaceUsername)
      || SiteNames(n, site, "github.com/", q.githubUsername)
    {
      ContainsExactlyWhen(n.lower(site), "huggingface.co/" + n.lower(q.huggingfaceUsername));
      ContainsExactlyWhen(n.lower(site), "github.com/" + n.lower(q.githubUsername));
    }
    var sites := [p.ghWebsite, p.website, p.hfWebsite];
    assert sites[0] in sites && sites[1] in sites && sites[2] in sites;
  }

  /** What the two have in common for a signal to be found. */
  ghost predicate Found(n: Normalisers, p: Profile, q: Profile, s: Signal) {
    var exact := Same(Name(n, p), Name(n, q)) && Same(Location(n, p), Location(n, q));
    match s
    case HfGithubExact => SameLogin(n, p, q)
    case EmailExact => exists e :: e in Emails(n, p) && e in Emails(n, q)
    case TwitterExact => Same(Twitter(n, p), Twitter(n, q))
    case WebsiteCrossref => NamesAccount(n, p, q) || NamesAccount(n, q, p)
    case LinkedinUrlMatch => Same(Linkedin(n, p), Linkedin(n, q))
    case AvatarGravatarMatch => Same(Gravatar(n, p), Gravatar(n, q))
    case NameLocationExact => exact
    case NameCompanyFuzzy => !exact && SimilarNames(n, p, q) && Same(Company(n, p), Company(n, q))
    case NameFuzzyAlone => !exact && SimilarNames(n, p, q) && !Same(Company(n, p), Company(n, q))
  }

  lemma HandlesAreFound(n: Normalisers, p: Profile, q: Profile, s: Signal)
    ensures s in If(ClaimsLogin(n, p, q), HfGithubExact) + If(ClaimsLogin(n, q, p), HfGithubExact)
                 + HandleSignals(n, p, q)
            <==> (s.HfGithubExact? || s.EmailExact? || s.TwitterExact?) && Found(n, p, q, s)
  {
  }

  lemma WebIsFound(n: Normalisers, p: Profile, q: Profile, s: Signal)
    ensures s in WebSignals(n, p, q)
            <==> (s.WebsiteCrossref? || s.LinkedinUrlMatch? || s.AvatarGravatarMatch?) && Found(n, p, q, s)
  {
    PointsAtIs(n, p, q);
    PointsAtIs(n, q, p);
  }

  lemma NameIsFound(n: Normalisers, p: Profile, q: Profile, s: Signal)
    ensures s in NameSignals(n, p, q)
            <==> (s.NameLocationExact? || s.NameCompanyFuzzy? || s.NameFuzzyAlone?) && Found(n, p, q, s)
  {
  }

  /** A signal is reported exactly when it is found. */
  lemma SignalsAreFound(n: Normalisers, p: Profile, q: Profile, s: Signal)
    ensures s in ScorePair(n, p, q) <==> Found(n, p, q, s)
  {
    var a, b := If(ClaimsLogin(n, p, q), HfGithubExact), If(ClaimsLogin(n, q, p), HfGithubExact);
    HandlesAreFound(n, p, q, s);
    WebIsFound(n, p, q, s);
    NameIsFound(n, p, q, s);
    assert s in ScorePair(n, p, q) <==>
      s in a + b + HandleSignals(n, p, q) || s in WebSignals(n, p, q) || s in NameSignals(n, p, q);
  }

  lemma StrongestDecides(signals: seq<Signal>, s: Signal)
    requires s in signals && forall t :: t in signals ==> Weight(t) <= Weight(s)
    ensures MaxWeight(signals) == Weight(s)
  {
  }

  /** The verdict is that of the strongest signal found: its weight, if that is
      enough for a review. */
  lemma StrongestIsKept(n: Normalisers, p: Profile, q: Profile, s: Signal)
    requires Found(n, p, q, s) && forall t :: Found(n, p, q, t) ==> Weight(t) <= Weight(s)
    ensures Judge(n, p, q) == if s.NameFuzzyAlone? then BelowReview else Keep(Weight(s))
  {
    var signals := ScorePair(n, p, q);
    SignalsAreFound(n, p, q, s);
    forall t | t in signals ensures Weight(t) <= Weight(s) {
      SignalsAreFound(n, p, q, t);
    }
    StrongestDecides(signals, s);
  }

  /** The first of the signals in the order of their weights. */
  ghost function Strongest(found: Signal -> bool): Option<Signal> {
    if found(HfGithubExact) then Some(HfGithubExact)
    else if found(EmailExact) then Some(EmailExact)
    else if found(TwitterExact) then Some(TwitterExact)
    else if found(WebsiteCrossref) then Some(WebsiteCrossref)
    else if found(LinkedinUrlMatch) then Some(LinkedinUrlMatch)
    else if found(AvatarGravatarMatch) then Some(AvatarGravatarMatch)
    else if found(NameLocationExact) then Some(NameLocationExact)
    else if found(NameCompanyFuzzy) then Some(NameCompanyFuzzy)
    else if found(NameFuzzyAlone) then Some(NameFuzzyAlone)
    else None
  }

  lemma StrongestIsStrongest(found: Signal -> bool, t: Signal)
    requires found(t)
    ensures Strongest(found).Some? && found(Strongest(found).value)
    ensures Weight(t) <= Weight(Strongest(found).value)
  {
  }

  ghost function Verdicts(strongest: Option<Signal>): Verdict {
    match strongest
    case None => NoSignal
    case Some(s) => if s.NameFuzzyAlone? then BelowReview else Keep(Weight(s))
  }

  lemma VerdictOfStrongest(n: Normalisers, p: Profile, q: Profile, found: Signal -> bool)
    requires forall s :: found(s) <==> Found(n, p, q, s)
    ensures Judge(n, p, q) == Verdicts(Strongest(found))
  {
    var strongest := Strongest(found);
    forall t | Found(n, p, q, t) ensures strongest.Some? && Weight(t) <= Weight(strongest.value) {
      StrongestIsStrongest(found, t);
    }
    if strongest.Some? {
      StrongestIsStrongest(found, strongest.value);
      StrongestIsKept(n, p, q, strongest.value);
    } else if ScorePair(n, p, q) != [] {
      SignalsAreFound(n, p, q, ScorePair(n, p, q)[0]);
    }
  }

  lemma VerdictsInTurn(found: Signal -> bool)
    ensures Verdicts(Strongest(found)) ==
      if found(HfGithubExact) then Keep(1.0)
      else if found(EmailExact) then Keep(0.9)
      else if found(TwitterExact) then Keep(0.85)
      else if found(WebsiteCrossref) then Keep(0.8)
      else if found(LinkedinUrlMatch) then Keep(0.75)
      else if found(AvatarGravatarMatch) then Keep(0.7)
      else if found(NameLocationExact) then Keep(0.6)
      else if found(NameCompanyFuzzy) then Keep(0.55)
      else if found(NameFuzzyAlone) then BelowReview
      else NoSignal
  {
  }

  /** The verdict on a pair, by the strongest of what the two have in common;
      `found` says what that is. */
  lemma VerdictIs(n: Normalisers, p: Profile, q: Profile, found: Signal -> bool)
    requires forall s :: found(s) <==> Found(n, p, q, s)
    ensures Judge(n, p, q) ==
      if found(HfGithubExact) then Keep(1.0)
      else if found(EmailExact) then Keep(0.9)
      else if found(TwitterExact) then Keep(0.85)
      else if found(WebsiteCrossref) then Keep(0.8)
      else if found(LinkedinUrlMatch) then Keep(0.75)
      else if found(AvatarGravatarMatch) then Keep(0.7)
      else if found(NameLocationExact) then Keep(0.6)
      else if found(NameCompanyFuzzy) then Keep(0.55)
      else if found(NameFuzzyAlone) then BelowReview
      else NoSignal
  {
    VerdictOfStrongest(n, p, q, found);
    VerdictsInTurn(found);
  }

  // ---- Which pairs are compared ----

  function Namesakes(n: Normalisers, ps: seq<Profile>, name: string): set<Profile> {
    set p | p in ps && Name(n, p) == name
  }

  /** The LinkedIn address a profile is filed under. */
  function FiledUrl(n: Normalisers, p: Profile): string {
    StripRight(n.lower(if p.linkedinUrl != "" then p.linkedinUrl else p.hfLinkedin), '/')
  }

  predicate HasUrl(p: Profile) {
    p.linkedinUrl != "" || p.hfLinkedin != ""
  }

  predicate IsLoginOf(n: Normalisers, p: Profile, login: string) {
    (p.hfGithubUsername != "" && login == n.lower(p.hfGithubUsername))
    || (p.githubUsername != "" && login == n.lower(p.githubUsername))
  }

  /** Two profiles are filed together for a common email, login, twitter handle
      or LinkedIn address, or a name that at most 50 profiles have. */
  ghost predicate FiledTogether(n: Normalisers, ps: seq<Profile>, p: Profile, q: Profile) {
    || (exists e :: e in Emails(n, p) && e in Emails(n, q))
    || (exists login :: IsLoginOf(n, p, login) && IsLoginOf(n, q, login))
    || Same(Twitter(n, p), Twitter(n, q))
    || (Same(Name(n, p), Name(n, q)) && |Namesakes(n, ps, Name(n, p))| <= 50)
    || (HasUrl(p) && HasUrl(q) && FiledUrl(n, p) == FiledUrl(n, q))
  }

  lemma EmailKeysAre(n: Normalisers, p: Profile, key: BlockKey)
    ensures key in EmailKeys(n, p) <==> key.EmailKey? && key.email in Emails(n, p)
  {
    if key.EmailKey? && key.email in Emails(n, p) {
      var i :| 0 <= i < |Emails(n, p)| && Emails(n, p)[i] == key.email;
      assert EmailKeys(n, p)[i] == key;
    }
  }

  lemma HandleKeysAre(n: Normalisers, p: Profile, key: BlockKey)
    ensures key in HandleKeys(n, p) <==>
      || (key.CrossrefKey? && IsLoginOf(n, p, key.login))
      || (key.TwitterKey? && key.handle == Twitter(n, p) != "")
  {
  }

  lemma UrlKeysAre(n: Normalisers, p: Profile, key: BlockKey)
    ensures key in UrlKeys(n, p) <==> key.LinkedinKey? && HasUrl(p) && key.url == FiledUrl(n, p)
  {
  }

  lemma KeysAre(n: Normalisers, p: Profile, key: BlockKey)
    ensures key in KeyList(n, p) <==>
      match key
      case EmailKey(e) => e in Emails(n, p)
      case CrossrefKey(login) => IsLoginOf(n, p, login)
      case TwitterKey(handle) => handle == Twitter(n, p) != ""
      case NameKey(name) => name == Name(n, p) != ""
      case LinkedinKey(url) => HasUrl(p) && url == FiledUrl(n, p)
  {
    EmailKeysAre(n, p, key);
    HandleKeysAre(n, p, key);
    UrlKeysAre(n, p, key);
    assert key in NameKeys(n, p) <==> key.NameKey? && key.name == Name(n, p) != "";
    InOneOf(EmailKeys(n, p), HandleKeys(n, p), NameKeys(n, p), UrlKeys(n, p), key);
  }

  lemma InOneOf(a: seq<BlockKey>, b: seq<BlockKey>, c: seq<BlockKey>, d: seq<BlockKey>, key: BlockKey)
    ensures key in a + b + c + d <==> key in a || key in b || key in c || key in d
  {
  }

  lemma {:induction false} CountJoin(a: seq<BlockKey>, b: seq<BlockKey>, key: BlockKey)
    ensures Count(a + b, key) == Count(a, key) + Count(b, key)
  {
    if b == [] {
      assert a + b == a;
    } else {
      CountJoin(a, b[..|b| - 1], key);
      assert (a + b)[..|a + b| - 1] == a + b[..|b| - 1];
    }
  }

  lemma CountsOnly(a: seq<BlockKey>, b: seq<BlockKey>, c: seq<BlockKey>, d: seq<BlockKey>, key: BlockKey)
    requires key !in a && key !in b && key !in d
    ensures Count(a + b + c + d, key) == Count(c, key)
  {
    CountJoin(a + b + c, d, key);
    CountJoin(a + b, c, key);
    CountJoin(a, b, key);
  }

  /** A profile is filed under its name once, and under no other name. */
  lemma NameIsFiledOnce(n: Normalisers, p: Profile, name: string)
    requires name != ""
    ensures Count(Keys(n)(p), NameKey(name)) == if Name(n, p) == name then 1 else 0
  {
    var key := NameKey(name);
    EmailKeysAre(n, p, key);
    HandleKeysAre(n, p, key);
    UrlKeysAre(n, p, key);
    CountsOnly(EmailKeys(n, p), HandleKeys(n, p), NameKeys(n, p), UrlKeys(n, p), key);
    CountOfOne(Name(n, p) != "", NameKey(Name(n, p)), key);
  }

  lemma CountOfOne(c: bool, k: BlockKey, key: BlockKey)
    ensures Count(Key(c, k), key) == if c && k == key then 1 else 0
  {
    assert [k][..0] == [];
  }

  lemma {:induction false} NamesakesAreFiled(n: Normalisers, ps: seq<Profile>, name: string)
    requires DistinctIds(ps) && name != ""
    ensures |Members(Keys(n), ps, NameKey(name))| == |Namesakes(n, ps, name)|
  {
    if ps == [] {
      assert Namesakes(n, ps, name) == {};
    } else {
      var init, last := ps[..|ps| - 1], ps[|ps| - 1];
      NamesakesAreFiled(n, init, name);
      NameIsFiledOnce(n, last, name);
      OneMoreNamesake(n, ps, name);
    }
  }

  lemma OneMoreNamesake(n: Normalisers, ps: seq<Profile>, name: string)
    requires DistinctIds(ps) && ps != []
    ensures |Namesakes(n, ps, name)| ==
      |Namesakes(n, ps[..|ps| - 1], name)| + if Name(n, ps[|ps| - 1]) == name then 1 else 0
  {
    var init, last := ps[..|ps| - 1], ps[|ps| - 1];
    assert ps == init + [last];
    assert last !in init;
    var before, after := Namesakes(n, init, name), Namesakes(n, ps, name);
    if Name(n, last) == name {
      assert after == before + {last};
    } else {
      assert after == before;
    }
  }

  lemma CommonKeyMeans(n: Normalisers, ps: seq<Profile>, p: Profile, q: Profile, key: BlockKey)
    requires DistinctIds(ps) && key in KeyList(n, p) && key in KeyList(n, q) && !Capped(Keys(n), ps, key)
    ensures FiledTogether(n, ps, p, q)
  {
    KeysAre(n, p, key);
    KeysAre(n, q, key);
    if key.NameKey? {
      NamesakesAreFiled(n, ps, key.name);
    }
  }

  lemma FiledTogetherExactlyWhen(n: Normalisers, ps: seq<Profile>, p: Profile, q: Profile)
    requires DistinctIds(ps)
    ensures Shares(Keys(n), ps, p, q) <==> FiledTogether(n, ps, p, q)
  {
    if key :| key in Keys(n)(p) && key in Keys(n)(q) && !Capped(Keys(n), ps, key) {
      CommonKeyMeans(n, ps, p, q, key);
    }
    if FiledTogether(n, ps, p, q) {
      var key := CommonBlock(n, ps, p, q);
      assert key in Keys(n)(p) && key in Keys(n)(q) && !Capped(Keys(n), ps, key);
    }
  }

  lemma CommonBlock(n: Normalisers, ps: seq<Profile>, p: Profile, q: Profile) returns (key: BlockKey)
    requires DistinctIds(ps) && FiledTogether(n, ps, p, q)
    ensures key in KeyList(n, p) && key in KeyList(n, q) && !Capped(Keys(n), ps, key)
  {
    if e :| e in Emails(n, p) && e in Emails(n, q) {
      key := EmailKey(e);
    } else if login :| IsLoginOf(n, p, login) && IsLoginOf(n, q, login) {
      key := CrossrefKey(login);
    } else if Same(Twitter(n, p), Twitter(n, q)) {
      key := TwitterKey(Twitter(n, p));
    } else if HasUrl(p) && HasUrl(q) && FiledUrl(n, p) == FiledUrl(n, q) {
      key := LinkedinKey(FiledUrl(n, p));
    } else {
      key := NameKey(Name(n, p));
      NamesakesAreFiled(n, ps, Name(n, p));
    }
    KeysAre(n, p, key);
    KeysAre(n, q, key);
  }

  ghost predicate IsCandidate(cs: set<Candidate>, p: Profile, q: Profile, score: real) {
    Candidate(p.id, q.id, score) in cs
  }

  /** A pair is a candidate, with a score, exactly when both profiles were
      loaded, the first is the newer one, they are filed together, and the
      verdict on them is to keep that score. */
  lemma CandidateExactlyWhen(n: Normalisers, ps: seq<Profile>, p: Profile, q: Profile, score: real)
    requires DistinctIds(ps) && p in ps && q in ps
    ensures IsCandidate(Expected(ResolverRules(n), ps), p, q, score) <==>
      Less(q.id, p.id) && FiledTogether(n, ps, p, q) && Judge(n, p, q) == Keep(score)
  {
    var r := ResolverRules(n);
    FiledTogetherExactlyWhen(n, ps, p, q);
    if IsCandidate(Expected(r, ps), p, q, score) {
      var pair :| pair in Comparable(r, ps) && r.judge(pair.0, pair.1).Keep?
                  && Candidate(p.id, q.id, score) == Candidate(pair.0.id, pair.1.id, r.judge(pair.0, pair.1).score);
      assert pair.0 == p && pair.1 == q;
    }
    if Less(q.id, p.id) && FiledTogether(n, ps, p, q) && Judge(n, p, q) == Keep(score) {
      KeptPairIsExpected(r, ps, p, q);
    }
  }

  lemma NameAndPlaceAreKept(n: Normalisers, p: Profile, q: Profile)
    requires Same(Name(n, p), Name(n, q)) && Same(Location(n, p), Location(n, q))
    ensures Judge(n, p, q).Keep? && Judge(n, p, q).score >= 0.6
  {
    assert Found(n, p, q, NameLocationExact);
    SignalsAreFound(n, p, q, NameLocationExact);
    SignalIsKept(n, p, q, NameLocationExact);
  }

  lemma SignalIsKept(n: Normalisers, p: Profile, q: Profile, s: Signal)
    requires s in ScorePair(n, p, q) && Weight(s) >= 0.4
    ensures Judge(n, p, q).Keep? && Judge(n, p, q).score >= Weight(s)
  {
  }

  /** Profiles of the same name and the same place are a candidate, unless more
      than 50 profiles have the name. */
  lemma NamesakesAreFound(n: Normalisers, ps: seq<Profile>, p: Profile, q: Profile)
    requires DistinctIds(ps) && p in ps && q in ps && Less(q.id, p.id)
    requires Name(n, p) == Name(n, q) != "" && |Namesakes(n, ps, Name(n, p))| <= 50
    requires Location(n, p) == Location(n, q) != ""
    ensures exists score :: score >= 0.6 && IsCandidate(Expected(ResolverRules(n), ps), p, q, score)
  {
    NameAndPlaceAreKept(n, p, q);
    var score := Judge(n, p, q).score;
    CandidateExactlyWhen(n, ps, p, q, score);
    assert score >= 0.6 && IsCandidate(Expected(ResolverRules(n), ps), p, q, score);
  }
}
