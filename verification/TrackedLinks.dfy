/**
  What link rewriting writes, told from the text and the arguments alone, and
  the way back from a tracked link to its original.
 */
module TrackedLinks {
  import opened Basics
  import opened LinkRewriter

  /** The six characters `href="`, in any letter case. */
  predicate IsHref(attr: string) {
    && |attr| == 6
    && (attr[0] == 'h' || attr[0] == 'H') && (attr[1] == 'r' || attr[1] == 'R')
    && (attr[2] == 'e' || attr[2] == 'E') && (attr[3] == 'f' || attr[3] == 'F')
    && attr[4] == '=' && attr[5] == '"'
  }

  lemma {:induction false} MatchesByLetter(s: string, pattern: string)
    requires |pattern| <= |s|
    ensures Matches(s, pattern) <==> forall i :: 0 <= i < |pattern| ==> Lower(s[i]) == pattern[i]
  {
    if pattern == "" {
    } else {
      MatchesByLetter(s[1..], pattern[1..]);
      if forall i :: 0 <= i < |pattern| ==> Lower(s[i]) == pattern[i] {
        assert forall i :: 0 <= i < |pattern[1..]| ==> Lower(s[1..][i]) == pattern[1..][i];
      }
      if Matches(s, pattern) {
        forall i | 1 <= i < |pattern| ensures Lower(s[i]) == pattern[i] {
          assert s[i] == s[1..][i - 1] && pattern[i] == pattern[1..][i - 1];
        }
      }
    }
  }

  lemma MatchesHref(s: string)
    requires |s| >= 6
    ensures Matches(s, HREF) <==> IsHref(s[..6])
  {
    MatchesByLetter(s, HREF);
    assert HREF[0] == 'h' && HREF[1] == 'r' && HREF[2] == 'e' && HREF[3] == 'f' && HREF[4] == '=' && HREF[5] == '"';
    if IsHref(s[..6]) {
      forall i | 0 <= i < 6 ensures Lower(s[i]) == HREF[i] {
        assert s[i] == s[..6][i];
      }
    }
  }

  /** A text begins with an anchor when it begins with `href="`, a url that is
      not empty and has no quote, and a quote. */
  lemma AnchorAhead(attr: string, url: string, rest: string)
    requires IsHref(attr) && url != "" && '"' !in url
    ensures var html := attr + url + "\"" + rest;
      IsAnchor(html) && html[..6] == attr && Url(html) == url && AfterAnchor(html) == rest
  {
    var html := attr + url + "\"" + rest;
    assert html[..6] == attr && html[6..] == url + "\"" + rest;
    MatchesHref(html);
    QuoteAfter(url, rest);
  }

  /** And in no other case. */
  lemma AnchorsOnlyThere(html: string)
    requires IsAnchor(html)
    ensures html == html[..6] + Url(html) + "\"" + AfterAnchor(html)
    ensures IsHref(html[..6]) && Url(html) != "" && '"' !in Url(html)
  {
    MatchesHref(html);
    var n := NextQuote(html[6..]);
    assert html[6..] == html[6..][..n] + [html[6..][n]] + html[6..][n + 1..];
  }

  // ---- The text that is written ----

  /** Urls that are left alone. */
  ghost predicate IsLeftAlone(url: string) {
    "mailto:" <= url || "tel:" <= url || "#" <= url || "{{" <= url
    || (exists i :: StandsAt(url, "/t/", i)) || (exists i :: StandsAt(url, "/c/", i))
    || (exists i :: StandsAt(url, "/unsub/", i))
  }

  lemma LeftAloneIsSkipped(url: string)
    ensures IsLeftAlone(url) <==> Skipped(url)
  {
    ContainsExactlyWhen(url, "/t/");
    ContainsExactlyWhen(url, "/c/");
    ContainsExactlyWhen(url, "/unsub/");
  }

  /** The tracker once its first id is drawn. */
  function AfterOne(t: Tracker): Tracker {
    t.(ids := (k: nat) => t.ids(k + 1))
  }

  lemma {:induction false} DrawingOn(t: Tracker, ps: seq<Piece>, k: nat)
    ensures Rewritten(t, ps, k + 1) == Rewritten(AfterOne(t), ps, k)
    ensures LinkMap(t, ps, k + 1) == LinkMap(AfterOne(t), ps, k)
  {
    if ps == [] {
    } else {
      DrawingOn(t, ps[1..], k);
      DrawingOn(t, ps[1..], k + 1);
    }
  }

  lemma PlainHead(t: Tracker, html: string)
    requires html != "" && !IsAnchor(html)
    ensures RewriteText(t, html) == [html[0]] + RewriteText(t, html[1..])
    ensures TextLinks(t, html) == TextLinks(t, html[1..])
  {
    assert Cut(html)[1..] == Cut(html[1..]);
  }

  lemma KeptHead(t: Tracker, html: string)
    requires IsAnchor(html) && IsLeftAlone(Url(html))
    ensures RewriteText(t, html) == html[..6] + Url(html) + "\"" + RewriteText(t, AfterAnchor(html))
    ensures TextLinks(t, html) == TextLinks(t, AfterAnchor(html))
  {
    LeftAloneIsSkipped(Url(html));
    var p, rest := Anchor(html[..6], Url(html)), Cut(AfterAnchor(html));
    assert Cut(html)[0] == p && Cut(html)[1..] == rest;
    assert Rewritten(t, Cut(html), 0) == [p] + Rewritten(t, rest, 0);
    assert ([p] + Rewritten(t, rest, 0))[1..] == Rewritten(t, rest, 0);
  }

  lemma TrackedHead(t: Tracker, html: string)
    requires IsAnchor(html) && !IsLeftAlone(Url(html))
    ensures RewriteText(t, html) ==
      "href=\"" + t.base + "/c/" + t.trackingId + "/" + t.ids(0) + "\"" + RewriteText(AfterOne(t), AfterAnchor(html))
    ensures TextLinks(t, html) == map[t.ids(0) := Url(html)] + TextLinks(AfterOne(t), AfterAnchor(html))
  {
    LeftAloneIsSkipped(Url(html));
    var p, rest := Anchor(HREF, TrackedUrl(t, t.ids(0))), Cut(AfterAnchor(html));
    DrawingOn(t, rest, 0);
    assert Cut(html)[1..] == rest;
    assert Rewritten(t, Cut(html), 0) == [p] + Rewritten(AfterOne(t), rest, 0);
    assert ([p] + Rewritten(AfterOne(t), rest, 0))[1..] == Rewritten(AfterOne(t), rest, 0);
    assert RenderPiece(p) == "href=\"" + t.base + "/c/" + t.trackingId + "/" + t.ids(0) + "\"";
  }

  ghost predicate AnchorAt(html: string, i: nat) {
    i <= |html| && IsAnchor(html[i..])
  }

  lemma PlainAt(t: Tracker, html: string, i: nat)
    requires i < |html| && !AnchorAt(html, i)
    ensures RewriteText(t, html[i..]) == [html[i]] + RewriteText(t, html[i + 1..])
    ensures TextLinks(t, html[i..]) == TextLinks(t, html[i + 1..])
  {
    PlainHead(t, html[i..]);
    assert html[i..][1..] == html[i + 1..];
  }

  lemma Prepended(c: char, text: string, rest: string, whole: string)
    requires whole == [c] + text
    ensures [c] + (text + rest) == whole + rest
  {
  }

  lemma {:induction false} PlainIsCopied(t: Tracker, html: string, i: nat, n: nat)
    requires i <= n <= |html| && forall k :: i <= k < n ==> !AnchorAt(html, k)
    ensures RewriteText(t, html[i..]) == html[i..n] + RewriteText(t, html[n..])
    ensures TextLinks(t, html[i..]) == TextLinks(t, html[n..])
    decreases n - i
  {
    if i == n {
      assert html[n..n] == "";
    } else {
      PlainAt(t, html, i);
      PlainIsCopied(t, html, i + 1, n);
      Prepended(html[i], html[i + 1..n], RewriteText(t, html[n..]), html[i..n]);
    }
  }

  /** A text without an anchor is not changed. */
  lemma NoAnchorNoChange(t: Tracker, html: string)
    requires forall i :: 0 <= i < |html| ==> !AnchorAt(html, i)
    ensures RewriteText(t, html) == html && TextLinks(t, html) == map[]
  {
    PlainIsCopied(t, html, 0, |html|);
    assert html[0..] == html[0..|html|] == html && html[|html|..] == "";
  }

  /** The first anchor of a text is left alone, or replaced by the tracked link
      with the first id; what stands before it is copied, and what stands after
      it is rewritten with the ids that follow. */
  lemma FirstAnchorIsTracked(t: Tracker, before: string, attr: string, url: string, rest: string)
    requires IsHref(attr) && url != "" && '"' !in url
    requires var html := before + (attr + url + "\"" + rest);
      forall i :: 0 <= i < |before| ==> !AnchorAt(html, i)
    ensures var html := before + (attr + url + "\"" + rest);
      if IsLeftAlone(url)
      then RewriteText(t, html) == before + (attr + url + "\"" + RewriteText(t, rest))
           && TextLinks(t, html) == TextLinks(t, rest)
      else RewriteText(t, html) == before + ("href=\"" + t.base + "/c/" + t.trackingId + "/" + t.ids(0) + "\""
                                             + RewriteText(AfterOne(t), rest))
           && TextLinks(t, html) == map[t.ids(0) := url] + TextLinks(AfterOne(t), rest)
  {
    var anchor := attr + url + "\"" + rest;
    var html := before + anchor;
    PlainIsCopied(t, html, 0, |before|);
    assert html[0..] == html && html[0..|before|] == before && html[|before|..] == anchor;
    AnchorAhead(attr, url, rest);
    if IsLeftAlone(url) {
      KeptHead(t, anchor);
    } else {
      TrackedHead(t, anchor);
    }
  }

  /** Every anchor of the output that was rewritten leads to the tracker. */
  lemma EveryLinkIsTracked(t: Tracker, html: string, i: nat)
    requires QuoteFree(t) && i < |Cut(html)| && Cut(html)[i].Anchor?
    ensures i < |Cut(RewriteText(t, html))|
    ensures Cut(RewriteText(t, html))[i] ==
      if IsLeftAlone(Cut(html)[i].url) then Cut(html)[i]
      else Anchor("href=\"", t.base + "/c/" + t.trackingId + "/" + t.ids(DrawnBefore(Cut(html), i)))
  {
    LeftAloneIsSkipped(Cut(html)[i].url);
    RewrittenCut(t, html);
    RewrittenAt(t, Cut(html), 0, i);
  }

  // ---- The way back ----

  /** The route `/c/{tracking_id}/{link_id}`: two parameters without a slash. */
  function Route(base: string, url: string): Option<(string, string)> {
    if base + "/c/" <= url then Segments(url[|base| + 3..], 0) else None
  }

  function Segments(path: string, i: nat): Option<(string, string)>
    requires i <= |path|
    decreases |path| - i
  {
    if i == |path| then None
    else if path[i] != '/' then Segments(path, i + 1)
    else if i == 0 || i + 1 == |path| || '/' in path[i + 1..] then None
    else Some((path[..i], path[i + 1..]))
  }

  lemma {:induction false} SegmentsAre(a: string, b: string, i: nat)
    requires a != "" && b != "" && '/' !in a && '/' !in b && i <= |a|
    ensures Segments(a + "/" + b, i) == Some((a, b))
    decreases |a| - i
  {
    var path := a + "/" + b;
    if i < |a| {
      assert path[i] == a[i];
      SegmentsAre(a, b, i + 1);
    } else {
      assert path[..i] == a && path[i + 1..] == b;
    }
  }

  ghost predicate IsSegment(s: string) {
    s != "" && '/' !in s
  }

  /** A rewritten link takes the click to its message and link id, and that id
      resolves to the original url. */
  lemma ClickLeadsBack(t: Tracker, html: string, i: nat)
    requires QuoteFree(t) && IsSegment(t.trackingId) && forall k :: IsSegment(t.ids(k))
    requires i < |Cut(html)| && Cut(html)[i].Anchor? && !IsLeftAlone(Cut(html)[i].url)
    requires DistinctIds(t, Drawn(Cut(html)))
    ensures i < |Cut(RewriteText(t, html))| && Cut(RewriteText(t, html))[i].Anchor?
    ensures var id := t.ids(DrawnBefore(Cut(html), i));
      && Route(t.base, Cut(RewriteText(t, html))[i].url) == Some((t.trackingId, id))
      && Click(TextLinks(t, html), id) == Some(Cut(html)[i].url)
  {
    var id := t.ids(DrawnBefore(Cut(html), i));
    EveryLinkIsTracked(t, html, i);
    LeftAloneIsSkipped(Cut(html)[i].url);
    CutsArePieces(html, i);
    ClickAt(t, Cut(html), i);
    var url := t.base + "/c/" + t.trackingId + "/" + id;
    assert url == t.base + "/c/" + (t.trackingId + "/" + id);
    assert url[|t.base| + 3..] == t.trackingId + "/" + id;
    SegmentsAre(t.trackingId, id, 0);
  }
}
