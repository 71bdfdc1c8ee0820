/**
  Link rewriting for click tracking.
 */
module LinkRewriter {
  import opened Basics

  // Scanning a text for `href="..."` cuts it into plain characters and anchors.
  // Replacing the url of an anchor by another quote-free url does not move any
  // cut: this is why the rewriting can be undone, and why running it again on
  // its own output finds nothing to do.

  const HREF := "href=\""

  function Lower(c: char): char {
    if 'A' <= c <= 'Z' then c - 'A' + 'a' else c
  }

  /** Does the text start with the (lower-case) pattern, ignoring case? */
  predicate Matches(s: string, pattern: string) {
    pattern == "" || (s != "" && Lower(s[0]) == pattern[0] && Matches(s[1..], pattern[1..]))
  }

  /** The position of the first quote, or the length if there is none. */
  function NextQuote(s: string): (n: nat)
    ensures n <= |s| && '"' !in s[..n] && (n < |s| ==> s[n] == '"')
  {
    if s == "" || s[0] == '"' then 0 else 1 + NextQuote(s[1..])
  }

  /** The pattern `href="([^"]+)"` matches at the start of the text. */
  predicate IsAnchor(html: string) {
    |html| > 6 && Matches(html, HREF) && 0 < NextQuote(html[6..]) < |html| - 6
  }

  function Url(html: string): string
    requires IsAnchor(html)
  {
    html[6..][..NextQuote(html[6..])]
  }

  function AfterAnchor(html: string): string
    requires IsAnchor(html)
  {
    html[6..][NextQuote(html[6..]) + 1..]
  }

  // ---- The cuts of a text ----

  /** `attr` is the six characters `href="` as they were written. */
  datatype Piece = Plain(c: char) | Anchor(attr: string, url: string)

  function Cut(html: string): seq<Piece>
    decreases |html|
  {
    if html == "" then []
    else if IsAnchor(html) then [Anchor(html[..6], Url(html))] + Cut(AfterAnchor(html))
    else [Plain(html[0])] + Cut(html[1..])
  }

  function RenderPiece(p: Piece): string {
    match p
    case Plain(c) => [c]
    case Anchor(attr, url) => attr + url + "\""
  }

  function Render(ps: seq<Piece>): string {
    if ps == [] then "" else RenderPiece(ps[0]) + Render(ps[1..])
  }

  predicate IsPiece(p: Piece) {
    p.Anchor? ==> |p.attr| == 6 && Matches(p.attr, HREF) && p.url != "" && '"' !in p.url
  }

  // ---- The rewriting, piece by piece ----

  /** `ids` is the supply of link ids, in the order in which they are drawn. */
  datatype Tracker = Tracker(base: string, trackingId: string, ids: nat -> string)

  function Prefix(t: Tracker): string {
    t.base + "/c/" + t.trackingId + "/"
  }

  function TrackedUrl(t: Tracker, id: string): string {
    Prefix(t) + id
  }

  predicate Skipped(url: string) {
    "mailto:" <= url || "tel:" <= url || "#" <= url || "{{" <= url
    || Contains(url, "/t/") || Contains(url, "/c/") || Contains(url, "/unsub/")
  }

  predicate Rewrites(p: Piece) {
    p.Anchor? && !Skipped(p.url)
  }

  /** `k` link ids have been drawn before `ps`. */
  function Rewritten(t: Tracker, ps: seq<Piece>, k: nat): seq<Piece> {
    if ps == [] then []
    else if Rewrites(ps[0]) then [Anchor(HREF, TrackedUrl(t, t.ids(k)))] + Rewritten(t, ps[1..], k + 1)
    else [ps[0]] + Rewritten(t, ps[1..], k)
  }

  /** Link ids drawn later overwrite equal ones drawn earlier. */
  function LinkMap(t: Tracker, ps: seq<Piece>, k: nat): map<string, string> {
    if ps == [] then map[]
    else if Rewrites(ps[0]) then map[t.ids(k) := ps[0].url] + LinkMap(t, ps[1..], k + 1)
    else LinkMap(t, ps[1..], k)
  }

  /** How many anchors are rewritten. */
  function Drawn(ps: seq<Piece>): nat {
    if ps == [] then 0 else Drawn(ps[1..]) + (if Rewrites(ps[0]) then 1 else 0)
  }

  // ---- Cutting and rendering ----

  lemma {:induction false} MatchesPrefix(s: string, pattern: string)
    requires |pattern| <= |s| && Matches(s, pattern)
    ensures Matches(s[..|pattern|], pattern)
  {
    if pattern == "" {
    } else {
      MatchesPrefix(s[1..], pattern[1..]);
      assert s[..|pattern|][1..] == s[1..][..|pattern| - 1];
    }
  }

  lemma {:induction false} MatchesExtends(s: string, rest: string, pattern: string)
    requires Matches(s, pattern)
    ensures Matches(s + rest, pattern)
  {
    if pattern == "" {
    } else {
      MatchesExtends(s[1..], rest, pattern[1..]);
      assert (s + rest)[1..] == s[1..] + rest;
    }
  }

  lemma AppendText(a: string, b: string, c: string)
    ensures a + (b + c) == (a + b) + c
  {
  }

  lemma AnchorParts(html: string)
    requires IsAnchor(html)
    ensures html == RenderPiece(Anchor(html[..6], Url(html))) + AfterAnchor(html)
    ensures IsPiece(Anchor(html[..6], Url(html)))
  {
    MatchesPrefix(html, HREF);
    var attr, rest, n := html[..6], html[6..], NextQuote(html[6..]);
    AppendText(attr, rest[..n], "\"" + rest[n + 1..]);
    AppendText(attr + rest[..n], "\"", rest[n + 1..]);
    assert html == attr + rest;
  }

  /** Rendering the cuts of a text gives the text back. */
  lemma {:induction false} RenderCut(html: string)
    ensures Render(Cut(html)) == html
    ensures forall p :: p in Cut(html) ==> IsPiece(p)
    decreases |html|
  {
    if html == "" {
    } else {
      if IsAnchor(html) {
        RenderCut(AfterAnchor(html));
        AnchorParts(html);
      } else {
        RenderCut(html[1..]);
      }
    }
  }

  lemma {:induction false} QuoteAfter(url: string, rest: string)
    requires '"' !in url
    ensures NextQuote(url + "\"" + rest) == |url|
  {
    var s := url + "\"" + rest;
    if url != "" {
      QuoteAfter(url[1..], rest);
      assert s[1..] == url[1..] + "\"" + rest;
      assert s[0] == url[0] && url[0] in url;
    }
  }

  /** A rendered anchor is recognised, with its own url. */
  lemma AnchorIsFound(p: Piece, rest: string)
    requires IsPiece(p) && p.Anchor?
    ensures var html := RenderPiece(p) + rest;
      IsAnchor(html) && html[..6] == p.attr && Url(html) == p.url && AfterAnchor(html) == rest
  {
    var html := RenderPiece(p) + rest;
    MatchesExtends(p.attr, p.url + "\"" + rest, HREF);
    assert html == p.attr + (p.url + "\"" + rest);
    assert html[6..] == p.url + "\"" + rest;
    QuoteAfter(p.url, rest);
  }

  // ---- Replacing urls moves no cut ----

  /** The same plain characters, and anchors in the same places. */
  ghost predicate SameShape(ps: seq<Piece>, qs: seq<Piece>) {
    && |ps| == |qs|
    && forall i :: 0 <= i < |ps| ==>
         IsPiece(ps[i]) && IsPiece(qs[i]) && (ps[i].Plain? || qs[i].Plain? ==> ps[i] == qs[i])
  }

  lemma SameShapeTail(ps: seq<Piece>, qs: seq<Piece>, k: nat)
    requires SameShape(ps, qs) && k <= |ps|
    ensures SameShape(ps[k..], qs[k..])
  {
  }

  lemma FirstLetter(p: Piece)
    requires IsPiece(p) && p.Anchor?
    ensures RenderPiece(p) != "" && Lower(RenderPiece(p)[0]) == 'h'
  {
  }

  lemma {:induction false} SameQuotes(ps: seq<Piece>, qs: seq<Piece>)
    requires SameShape(ps, qs)
    ensures '"' in Render(ps) <==> '"' in Render(qs)
  {
    if ps == [] {
    } else {
      SameShapeTail(ps, qs, 1);
      SameQuotes(ps[1..], qs[1..]);
      if ps[0].Anchor? {
        assert RenderPiece(ps[0])[|RenderPiece(ps[0])| - 1] == '"';
        assert RenderPiece(qs[0])[|RenderPiece(qs[0])| - 1] == '"';
      }
    }
  }

  /** The text goes on with a quote-free, non-empty url and a closing quote. */
  predicate HasUrl(s: string) {
    s != "" && s[0] != '"' && '"' in s
  }

  lemma SameUrl(ps: seq<Piece>, qs: seq<Piece>)
    requires SameShape(ps, qs)
    ensures HasUrl(Render(ps)) <==> HasUrl(Render(qs))
  {
    SameQuotes(ps, qs);
    if ps != [] && ps[0].Anchor? {
      FirstLetter(ps[0]);
      FirstLetter(qs[0]);
    }
  }

  /** What remains to be matched of `href="` after its first letter never
      starts with an `h`, so it can only be matched by plain characters, and
      both texts have the same ones. */
  lemma {:induction false} SameMatch(ps: seq<Piece>, qs: seq<Piece>, j: nat)
    requires SameShape(ps, qs) && 1 <= j <= 6
    ensures Matches(Render(ps), HREF[j..]) <==> Matches(Render(qs), HREF[j..])
    ensures Matches(Render(ps), HREF[j..]) ==>
      |Render(ps)| >= 6 - j && |Render(qs)| >= 6 - j && |ps| >= 6 - j
      && Render(ps)[6 - j..] == Render(ps[6 - j..]) && Render(qs)[6 - j..] == Render(qs[6 - j..])
    decreases 6 - j
  {
    if j < 6 && ps != [] {
      if ps[0].Anchor? {
        FirstLetter(ps[0]);
        FirstLetter(qs[0]);
        assert Lower(Render(ps)[0]) == Lower(Render(qs)[0]) == 'h' != HREF[j..][0];
      } else {
        SameShapeTail(ps, qs, 1);
        SameMatch(ps[1..], qs[1..], j + 1);
        assert Render(ps)[1..] == Render(ps[1..]) && Render(qs)[1..] == Render(qs[1..]);
        assert HREF[j..][1..] == HREF[j + 1..];
        if Matches(Render(ps), HREF[j..]) {
          assert ps[1..][6 - (j + 1)..] == ps[6 - j..] && qs[1..][6 - (j + 1)..] == qs[6 - j..];
          assert Render(ps)[6 - j..] == Render(ps)[1..][5 - j..];
          assert Render(qs)[6 - j..] == Render(qs)[1..][5 - j..];
        }
      }
    }
  }

  lemma AnchorUnfolds(c: char, s: string)
    ensures IsAnchor([c] + s) <==> Lower(c) == 'h' && Matches(s, HREF[1..]) && |s| >= 5 && HasUrl(s[5..])
  {
    var html := [c] + s;
    assert html[1..] == s;
    if |s| >= 5 {
      assert html[6..] == s[5..];
    }
  }

  /** Whether an anchor starts at a plain character depends on the shape only. */
  lemma SameAnchor(c: char, ps: seq<Piece>, qs: seq<Piece>)
    requires SameShape(ps, qs)
    ensures IsAnchor([c] + Render(ps)) <==> IsAnchor([c] + Render(qs))
  {
    AnchorUnfolds(c, Render(ps));
    AnchorUnfolds(c, Render(qs));
    SameMatch(ps, qs, 1);
    if Matches(Render(ps), HREF[1..]) {
      SameShapeTail(ps, qs, 5);
      SameUrl(ps[5..], qs[5..]);
    }
  }

  /** Scanning again after a replacement of urls finds the same anchors. */
  lemma {:induction false} Rescan(ps: seq<Piece>, qs: seq<Piece>)
    requires SameShape(ps, qs) && Cut(Render(ps)) == ps
    ensures Cut(Render(qs)) == qs
  {
    if ps == [] {
    } else {
      SameShapeTail(ps, qs, 1);
      if ps[0].Anchor? {
        AnchorIsFound(ps[0], Render(ps[1..]));
        AnchorIsFound(qs[0], Render(qs[1..]));
      } else {
        SameAnchor(ps[0].c, ps[1..], qs[1..]);
        var html := Render(ps);
        assert Cut(html)[0] == ps[0];
        assert !IsAnchor(html);
        assert html[1..] == Render(ps[1..]) && Render(qs)[1..] == Render(qs[1..]);
      }
      assert Cut(Render(ps[1..])) == ps[1..] by {
        assert Cut(Render(ps))[1..] == ps[1..];
      }
      Rescan(ps[1..], qs[1..]);
    }
  }

  // ---- Tracked urls ----

  /** Base url, tracking id and link ids contain no quote. */
  ghost predicate QuoteFree(t: Tracker) {
    '"' !in t.base && '"' !in t.trackingId && forall k :: '"' !in t.ids(k)
  }

  lemma TrackedUrlIsSkipped(t: Tracker, id: string)
    ensures Skipped(TrackedUrl(t, id))
  {
    ContainsInside(t.base, "/c/", t.trackingId + "/" + id);
    assert TrackedUrl(t, id) == t.base + "/c/" + (t.trackingId + "/" + id);
  }

  lemma TrackedAnchor(t: Tracker, k: nat)
    requires QuoteFree(t)
    ensures IsPiece(Anchor(HREF, TrackedUrl(t, t.ids(k)))) && !Rewrites(Anchor(HREF, TrackedUrl(t, t.ids(k))))
  {
    TrackedUrlIsSkipped(t, t.ids(k));
  }

  lemma ShapeStep(p: Piece, q: Piece, ps: seq<Piece>, qs: seq<Piece>)
    requires SameShape(ps, qs) && IsPiece(p) && IsPiece(q) && (p.Plain? || q.Plain? ==> p == q)
    ensures SameShape([p] + ps, [q] + qs)
  {
  }

  lemma {:induction false} RewrittenShape(t: Tracker, ps: seq<Piece>, k: nat)
    requires QuoteFree(t) && forall p :: p in ps ==> IsPiece(p)
    ensures SameShape(ps, Rewritten(t, ps, k))
    ensures forall q :: q in Rewritten(t, ps, k) ==> !Rewrites(q)
  {
    if ps == [] {
    } else {
      assert forall p :: p in ps[1..] ==> p in ps;
      assert IsPiece(ps[0]) && ps == [ps[0]] + ps[1..];
      if Rewrites(ps[0]) {
        RewrittenShape(t, ps[1..], k + 1);
        TrackedAnchor(t, k);
        ShapeStep(ps[0], Anchor(HREF, TrackedUrl(t, t.ids(k))), ps[1..], Rewritten(t, ps[1..], k + 1));
      } else {
        RewrittenShape(t, ps[1..], k);
        ShapeStep(ps[0], ps[0], ps[1..], Rewritten(t, ps[1..], k));
      }
    }
  }

  lemma {:induction false} NothingToRewrite(t: Tracker, ps: seq<Piece>, k: nat)
    requires forall p :: p in ps ==> !Rewrites(p)
    ensures Rewritten(t, ps, k) == ps && LinkMap(t, ps, k) == map[]
  {
    if ps == [] {
    } else {
      NothingToRewrite(t, ps[1..], k);
    }
  }

  function RewriteText(t: Tracker, html: string): string {
    Render(Rewritten(t, Cut(html), 0))
  }

  function TextLinks(t: Tracker, html: string): map<string, string> {
    LinkMap(t, Cut(html), 0)
  }

  lemma RewrittenCut(t: Tracker, html: string)
    requires QuoteFree(t)
    ensures Cut(RewriteText(t, html)) == Rewritten(t, Cut(html), 0)
  {
    RenderCut(html);
    RewrittenShape(t, Cut(html), 0);
    Rescan(Cut(html), Rewritten(t, Cut(html), 0));
  }

  /** Rewriting the output again, with whatever new ids, changes nothing and
      yields an empty map. */
  lemma RewritingTwice(t: Tracker, u: Tracker, html: string)
    requires QuoteFree(t)
    ensures RewriteText(u, RewriteText(t, html)) == RewriteText(t, html)
    ensures TextLinks(u, RewriteText(t, html)) == map[]
  {
    RewrittenCut(t, html);
    RenderCut(html);
    RewrittenShape(t, Cut(html), 0);
    NothingToRewrite(u, Rewritten(t, Cut(html), 0), 0);
  }

  // ---- Undoing the rewriting ----

  /** Replace an anchor's tracked url by what the link map holds for its id. */
  function RestorePiece(t: Tracker, links: map<string, string>, p: Piece): Piece {
    if p.Anchor? && Prefix(t) <= p.url && p.url[|Prefix(t)|..] in links
    then Anchor(p.attr, links[p.url[|Prefix(t)|..]])
    else p
  }

  function RestorePieces(t: Tracker, links: map<string, string>, ps: seq<Piece>): seq<Piece> {
    seq(|ps|, i requires 0 <= i < |ps| => RestorePiece(t, links, ps[i]))
  }

  function RestoreText(t: Tracker, links: map<string, string>, html: string): string {
    Render(RestorePieces(t, links, Cut(html)))
  }

  /** The original text, with `href` in lower case on the rewritten anchors. */
  function LowerHref(ps: seq<Piece>): seq<Piece> {
    seq(|ps|, i requires 0 <= i < |ps| => if Rewrites(ps[i]) then Anchor(HREF, ps[i].url) else ps[i])
  }

  ghost predicate DistinctIds(t: Tracker, n: nat) {
    forall k, l :: 0 <= k < l < n ==> t.ids(k) != t.ids(l)
  }

  /** The drawn ids differ, and no url of the text is a tracked url of one. */
  ghost predicate FreshIds(t: Tracker, ps: seq<Piece>) {
    && DistinctIds(t, Drawn(ps))
    && (forall p, k :: p in ps && p.Anchor? && 0 <= k < Drawn(ps) ==> p.url != TrackedUrl(t, t.ids(k)))
  }

  /** The number of ids drawn before piece `i`. */
  function DrawnBefore(ps: seq<Piece>, i: nat): nat
    requires i <= |ps|
  {
    Drawn(ps[..i])
  }

  lemma {:induction false} DrawnSplits(ps: seq<Piece>, i: nat)
    requires i < |ps|
    ensures DrawnBefore(ps, i + 1) == DrawnBefore(ps, i) + (if Rewrites(ps[i]) then 1 else 0) <= Drawn(ps)
  {
    if i > 0 {
      DrawnSplits(ps[1..], i - 1);
      assert ps[..i][1..] == ps[1..][..i - 1] && ps[..i + 1][1..] == ps[1..][..i];
    } else {
      assert ps[..1][1..] == [];
    }
  }

  /** Piece `i` of the output. */
  lemma {:induction false} RewrittenAt(t: Tracker, ps: seq<Piece>, k: nat, i: nat)
    requires i < |ps|
    ensures |Rewritten(t, ps, k)| == |ps|
    ensures Rewritten(t, ps, k)[i] ==
            if Rewrites(ps[i]) then Anchor(HREF, TrackedUrl(t, t.ids(k + DrawnBefore(ps, i)))) else ps[i]
  {
    var step := if Rewrites(ps[0]) then 1 else 0;
    if i > 0 {
      RewrittenAt(t, ps[1..], k + step, i - 1);
      assert ps[..i][1..] == ps[1..][..i - 1];
    } else {
      RewrittenLength(t, ps, k);
    }
  }

  lemma {:induction false} RewrittenLength(t: Tracker, ps: seq<Piece>, k: nat)
    ensures |Rewritten(t, ps, k)| == |ps|
  {
    if ps == [] {
    } else {
      RewrittenLength(t, ps[1..], k);
      RewrittenLength(t, ps[1..], k + 1);
    }
  }

  /** The link map holds exactly the drawn ids. */
  lemma {:induction false} LinkMapKeys(t: Tracker, ps: seq<Piece>, k: nat, id: string)
    ensures id in LinkMap(t, ps, k) <==> exists l :: k <= l < k + Drawn(ps) && t.ids(l) == id
  {
    if ps == [] {
    } else {
      var step := if Rewrites(ps[0]) then 1 else 0;
      LinkMapKeys(t, ps[1..], k + step, id);
      assert Drawn(ps) == Drawn(ps[1..]) + step;
      if Rewrites(ps[0]) {
        assert (exists l :: k <= l < k + Drawn(ps) && t.ids(l) == id) <==>
               t.ids(k) == id || exists l :: k + 1 <= l < k + 1 + Drawn(ps[1..]) && t.ids(l) == id;
      }
    }
  }

  /** With distinct ids, each rewritten anchor finds its own url in the map. */
  lemma {:induction false} LinkMapAt(t: Tracker, ps: seq<Piece>, k: nat, i: nat)
    requires i < |ps| && Rewrites(ps[i])
    requires forall a, b :: k <= a < b < k + Drawn(ps) ==> t.ids(a) != t.ids(b)
    ensures t.ids(k + DrawnBefore(ps, i)) in LinkMap(t, ps, k)
    ensures LinkMap(t, ps, k)[t.ids(k + DrawnBefore(ps, i))] == ps[i].url
  {
    var step := if Rewrites(ps[0]) then 1 else 0;
    if i > 0 {
      LinkMapAt(t, ps[1..], k + step, i - 1);
      assert ps[..i][1..] == ps[1..][..i - 1];
    } else {
      LinkMapKeys(t, ps[1..], k + 1, t.ids(k));
    }
  }

  lemma RestoredAt(t: Tracker, ps: seq<Piece>, i: nat)
    requires i < |ps| && FreshIds(t, ps)
    ensures |Rewritten(t, ps, 0)| == |ps|
    ensures RestorePiece(t, LinkMap(t, ps, 0), Rewritten(t, ps, 0)[i]) == LowerHref(ps)[i]
  {
    RewrittenAt(t, ps, 0, i);
    if Rewrites(ps[i]) {
      LinkMapAt(t, ps, 0, i);
      var id := t.ids(DrawnBefore(ps, i));
      assert TrackedUrl(t, id)[|Prefix(t)|..] == id;
    } else if ps[i].Anchor? && Prefix(t) <= ps[i].url {
      var id := ps[i].url[|Prefix(t)|..];
      assert ps[i].url == TrackedUrl(t, id);
      LinkMapKeys(t, ps, 0, id);
      assert ps[i] in ps;
    }
  }

  /** Undoing the rewriting through the link map gives the original text back,
      up to the letter case of `href` on the rewritten anchors. */
  lemma RoundTrip(t: Tracker, html: string)
    requires QuoteFree(t) && FreshIds(t, Cut(html))
    ensures RestoreText(t, TextLinks(t, html), RewriteText(t, html)) == Render(LowerHref(Cut(html)))
    ensures SameIgnoringCase(html, Render(LowerHref(Cut(html))))
  {
    var ps := Cut(html);
    RewrittenCut(t, html);
    RewrittenLength(t, ps, 0);
    forall i | 0 <= i < |ps|
      ensures RestorePieces(t, LinkMap(t, ps, 0), Rewritten(t, ps, 0))[i] == LowerHref(ps)[i]
    {
      RestoredAt(t, ps, i);
    }
    assert RestorePieces(t, LinkMap(t, ps, 0), Rewritten(t, ps, 0)) == LowerHref(ps);
    RenderCut(html);
    LowerHrefIgnoresCase(ps);
  }

  predicate SameIgnoringCase(a: string, b: string) {
    |a| == |b| && forall i :: 0 <= i < |a| ==> Lower(a[i]) == Lower(b[i])
  }

  lemma {:induction false} MatchedLetters(s: string, pattern: string)
    requires Matches(s, pattern)
    ensures |pattern| <= |s| && forall i :: 0 <= i < |pattern| ==> Lower(s[i]) == pattern[i]
  {
    if pattern == "" {
    } else {
      MatchedLetters(s[1..], pattern[1..]);
      forall i | 0 <= i < |pattern| ensures Lower(s[i]) == pattern[i] {
        if i > 0 {
          assert s[i] == s[1..][i - 1] && pattern[i] == pattern[1..][i - 1];
        }
      }
    }
  }

  lemma LowerPieceIgnoresCase(p: Piece)
    requires IsPiece(p) && p.Anchor?
    ensures SameIgnoringCase(RenderPiece(p), RenderPiece(Anchor(HREF, p.url)))
  {
    MatchedLetters(p.attr, HREF);
    assert SameIgnoringCase(p.attr, HREF);
  }

  lemma {:induction false} LowerHrefIgnoresCase(ps: seq<Piece>)
    requires forall p :: p in ps ==> IsPiece(p)
    ensures SameIgnoringCase(Render(ps), Render(LowerHref(ps)))
  {
    if ps == [] {
    } else {
      var qs := LowerHref(ps);
      LowerHrefIgnoresCase(ps[1..]);
      assert qs[1..] == LowerHref(ps[1..]);
      if Rewrites(ps[0]) {
        LowerPieceIgnoresCase(ps[0]);
      }
    }
  }

  // ---- Clicks ----

  /** What `record_click` answers for a link id of a stored message. */
  function Click(links: map<string, string>, id: string): Option<string> {
    if id in links && links[id] != "" then Some(links[id]) else None
  }

  lemma CutsArePieces(html: string, i: nat)
    requires i < |Cut(html)|
    ensures IsPiece(Cut(html)[i])
  {
    RenderCut(html);
  }

  lemma ClickAt(t: Tracker, ps: seq<Piece>, i: nat)
    requires i < |ps| && Rewrites(ps[i]) && IsPiece(ps[i]) && DistinctIds(t, Drawn(ps))
    ensures i < |Rewritten(t, ps, 0)|
    ensures Rewritten(t, ps, 0)[i] == Anchor(HREF, TrackedUrl(t, t.ids(DrawnBefore(ps, i))))
    ensures Click(LinkMap(t, ps, 0), t.ids(DrawnBefore(ps, i))) == Some(ps[i].url)
  {
    RewrittenAt(t, ps, 0, i);
    LinkMapAt(t, ps, 0, i);
  }

  /** Every rewritten link of the output resolves to its original url. */
  lemma ClicksResolve(t: Tracker, html: string, i: nat)
    requires QuoteFree(t) && i < |Cut(html)| && Rewrites(Cut(html)[i]) && DistinctIds(t, Drawn(Cut(html)))
    ensures i < |Cut(RewriteText(t, html))|
    ensures exists id :: Cut(RewriteText(t, html))[i] == Anchor(HREF, TrackedUrl(t, id))
                         && Click(TextLinks(t, html), id) == Some(Cut(html)[i].url)
  {
    RewrittenCut(t, html);
    CutsArePieces(html, i);
    ClickAt(t, Cut(html), i);
  }

  // ---- The program ----

  function AfterFirst(rest: string): (r: string)
    requires rest != ""
    ensures |r| < |rest|
  {
    if IsAnchor(rest) then AfterAnchor(rest) else rest[1..]
  }

  lemma AppendLinks(a: map<string, string>, b: map<string, string>, c: map<string, string>)
    ensures a + (b + c) == (a + b) + c
  {
  }

  /** Consume one plain character, or one anchor through the callback
      `_replace_href`, which may add an entry to the link map. */
  method ReplaceNext(t: Tracker, rest: string, k: nat)
    returns (text: string, links: map<string, string>, rest': string, k': nat)
    requires rest != ""
    ensures |rest'| < |rest|
    ensures Render(Rewritten(t, Cut(rest), k)) == text + Render(Rewritten(t, Cut(rest'), k'))
    ensures LinkMap(t, Cut(rest), k) == links + LinkMap(t, Cut(rest'), k')
  {
    links, rest', k' := map[], AfterFirst(rest), k;
    assert Cut(rest)[1..] == Cut(rest');
    if !IsAnchor(rest) {
      text := [rest[0]];
    } else if Skipped(Url(rest)) {
      text := rest[..6] + Url(rest) + "\"";
    } else {
      links := map[t.ids(k) := Url(rest)];
      text := HREF + TrackedUrl(t, t.ids(k)) + "\"";
      k' := k + 1;
    }
  }

  /** `rewrite_links`, with the link ids it draws as a parameter. */
  method RewriteLinks(html: string, trackingId: string, baseUrl: string, ids: nat -> string)
    returns (out: string, linkMap: map<string, string>)
    ensures var t := Tracker(StripRight(baseUrl, '/'), trackingId, ids);
      out == RewriteText(t, html) && linkMap == TextLinks(t, html)
  {
    var t := Tracker(StripRight(baseUrl, '/'), trackingId, ids);
    out, linkMap := "", map[];
    var rest, k := html, 0;
    while rest != ""
      invariant out + Render(Rewritten(t, Cut(rest), k)) == RewriteText(t, html)
      invariant linkMap + LinkMap(t, Cut(rest), k) == TextLinks(t, html)
      decreases |rest|
    {
      var text, links, after, next := ReplaceNext(t, rest, k);
      AppendText(out, text, Render(Rewritten(t, Cut(after), next)));
      AppendLinks(linkMap, links, LinkMap(t, Cut(after), next));
      out, linkMap, rest, k := out + text, linkMap + links, after, next;
    }
  }
}
