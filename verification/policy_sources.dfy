/** The multi-authority policy collector of `news_crawler/policy_sources.py`:
    from each authority's list page it keeps the same-site links whose text
    mentions a sector or policy term, at most sixty per page, and a page
    that cannot be fetched yields one placeholder record. Page fetching and
    HTML parsing are outside the model (a page arrives as its anchors or as
    an error), and so are `urljoin` and `urlparse`, which are parameters.
    A link that `urljoin` cannot resolve aborts the page, which then
    yields the placeholder too. */
module PolicySources {
  import opened Optional
  import opened Seqs
  import opened Strs
  import opened NewsItem
  import opened Keywords
  import opened Collect

  /** The list pages visited, in visiting order. */
  const Sources: seq<string> := [
    "https://www.ndrc.gov.cn/xwdt/",
    "https://www.miit.gov.cn/gzcy/index.html",
    "https://www.nea.gov.cn/",
    "https://www.csrc.gov.cn/csrc/c100028/common_list.shtml",
    "https://www.nmpa.gov.cn/",
    "https://www.nhsa.gov.cn/",
    "https://www.fmprc.gov.cn/web/wjdt_674879/",
    "https://www.mofcom.gov.cn/article/ae/",
    "https://www.sse.com.cn/disclosure/announcement/",
    "https://www.szse.cn/disclosure/notice/company/index.html"
  ]

  /** At most this many records are kept from one page. */
  const MaxPerSource: nat := 60

  /** What `urllib.parse.urljoin` does with a link: it resolves it, or it
      raises with an error message. */
  datatype Joined = Resolved(url: string) | JoinRaised(error: string)

  /** The URL library the collector calls: `join(base, href)` is
      `urllib.parse.urljoin`, and `netloc(url)` is the network location
      `urllib.parse.urlparse` reports, `None` when it raises. */
  datatype Resolver = Resolver(join: (string, string) -> Joined, netloc: string -> Option<string>)

  /** `_same_domain`: the link has a network location, and one of the two
      network locations ends with the other. */
  function SameDomain(res: Resolver, href: string, base: string): (b: bool)
    ensures b ==> res.netloc(href).Some? && res.netloc(base).Some? && res.netloc(href).value != ""
    ensures b <==> match (res.netloc(href), res.netloc(base))
                   case (Some(h), Some(bn)) => h != "" && (EndsWith(h, bn) || EndsWith(bn, h))
                   case _ => false
  {
    match res.netloc(href)
    case None => false
    case Some(h) =>
      match res.netloc(base)
      case None => false
      case Some(bn) => |h| > 0 && (EndsWith(h, bn) || EndsWith(bn, h))
  }

  /** The domain test compares network locations as plain strings: a
      look-alike host that merely ends with the site's name passes, and a
      page whose own address has no network location accepts every link
      that has one. */
  lemma SameDomainIsSuffixOnly(res: Resolver, href: string, base: string)
    ensures res.netloc(href) == Some("evilgov.cn") && res.netloc(base) == Some("gov.cn") ==> SameDomain(res, href, base)
    ensures res.netloc(base) == Some("") && res.netloc(href).Some? && res.netloc(href).value != "" ==>
              SameDomain(res, href, base)
  {
    if res.netloc(href) == Some("evilgov.cn") && res.netloc(base) == Some("gov.cn") {
      assert "evilgov.cn"[4..] == "gov.cn";
    }
    if res.netloc(base) == Some("") && res.netloc(href).Some? {
      var h := res.netloc(href).value;
      assert h[|h|..] == "";
    }
  }

  /** `_text_matches`: it accepts exactly the non-empty texts in which a
      sector term or a policy term occurs. */
  function TextMatches(text: string): (r: bool)
    ensures r <==> text != "" && (AnyHit(TargetSectors, text) || AnyHit(PolicyKeywords, text))
  {
    AnyHitConcat(TargetSectors, PolicyKeywords, text);
    text != "" && MatchesAny(TargetSectors + PolicyKeywords, text)
  }

  /** A term of two lists occurs exactly when a term of one of them does. */
  lemma AnyHitConcat(a: seq<string>, b: seq<string>, text: string)
    ensures AnyHit(a + b, text) <==> AnyHit(a, text) || AnyHit(b, text)
  {
    if AnyHit(a + b, text) {
      var t :| t in a + b && Contains(text, t);
      assert t in a || t in b;
    }
    if AnyHit(a, text) {
      var t :| t in a && Contains(text, t);
      assert t in a + b;
    }
    if AnyHit(b, text) {
      var t :| t in b && Contains(text, t);
      assert t in a + b;
    }
  }

  /** What one anchor contributes: `None` when its text or link is empty,
      when the link cannot be resolved, when the resolved link is not
      http(s), not on the page's site, or when its text matches no term;
      otherwise a record whose body repeats its title. */
  function Candidate(res: Resolver, base: string, a: Anchor): (r: Option<Item>)
    ensures r.Some? ==> res.join(base, a.href).Resolved?
                        && r.value == Untagged(a.text, a.text, res.join(base, a.href).url)
    ensures r.Some? <==> a.text != "" && a.href != "" && res.join(base, a.href).Resolved?
                         && StartsWith(res.join(base, a.href).url, "http")
                         && SameDomain(res, res.join(base, a.href).url, base) && TextMatches(a.text)
  {
    if a.text == "" || a.href == "" then None
    else
      match res.join(base, a.href)
      case JoinRaised(_) => None
      case Resolved(fixed) =>
        if !StartsWith(fixed, "http") then None
        else if !SameDomain(res, fixed, base) then None
        else if !TextMatches(a.text) then None
        else Some(Untagged(a.text, a.text, fixed))
  }

  /** The error an anchor raises: its text and link are non-empty, so the
      link is resolved, and resolving it raises. */
  function Raises(res: Resolver, base: string, a: Anchor): (r: Option<string>)
    ensures r.Some? <==> a.text != "" && a.href != "" && res.join(base, a.href).JoinRaised?
    ensures r.Some? ==> Candidate(res, base, a).None? && r.value == res.join(base, a.href).error
  {
    if a.text != "" && a.href != "" && res.join(base, a.href).JoinRaised? then Some(res.join(base, a.href).error)
    else None
  }

  /** `_extract`: the loop over the page's anchors, which stops as soon as
      sixty records are kept, or at the first link that cannot be resolved
      before that. */
  method Extract(res: Resolver, anchors: seq<Anchor>, base: string) returns (outcome: Scanned<Item>)
    ensures outcome == PageOutcome(res, anchors, base)
    ensures outcome.Kept? ==> outcome.records == PageRecords(res, anchors, base)
  {
    outcome := KeepFirstUnlessFails(anchors, a => Candidate(res, base, a), a => Raises(res, base, a), MaxPerSource);
  }

  /** How the scan of one page ends. It ends normally when no anchor
      raises, or more generally when every anchor that raises comes after
      sixty records are kept. */
  function PageOutcome(res: Resolver, anchors: seq<Anchor>, base: string): (r: Scanned<Item>)
    ensures r.Kept? ==> r.records == PageRecords(res, anchors, base)
    ensures (forall i :: 0 <= i < |anchors| ==> Raises(res, base, anchors[i]).None?) ==> r.Kept?
    ensures (forall k :: 0 <= k < |anchors| && Raises(res, base, anchors[k]).Some? ==>
               |PageRecords(res, anchors[..k], base)| == MaxPerSource) ==> r.Kept?
  {
    ScanWithoutFailures(anchors, a => Candidate(res, base, a), a => Raises(res, base, a), MaxPerSource, 0, []);
    Scan(anchors, a => Candidate(res, base, a), a => Raises(res, base, a), MaxPerSource)
  }

  /** The first anchor that raises before sixty records are kept aborts
      the page's scan with its error. */
  lemma FirstRaisingLinkAbortsPage(res: Resolver, anchors: seq<Anchor>, base: string, k: nat)
    requires k < |anchors| && Raises(res, base, anchors[k]).Some?
    requires forall j :: 0 <= j < k ==> Raises(res, base, anchors[j]).None?
    requires |PageRecords(res, anchors[..k], base)| < MaxPerSource
    ensures PageOutcome(res, anchors, base) == Aborted(Raises(res, base, anchors[k]).value)
  {
    ScanAborts(anchors, a => Candidate(res, base, a), a => Raises(res, base, a), MaxPerSource, k);
  }

  /** The records of a page whose scan ends normally: its first sixty
      anchor contributions. */
  function PageRecords(res: Resolver, anchors: seq<Anchor>, base: string): (r: seq<Item>)
    ensures |r| <= MaxPerSource
  {
    Take(FilterMap(anchors, a => Candidate(res, base, a)), MaxPerSource)
  }

  /** Every kept record comes from one anchor of the page: its title is the
      anchor's non-empty text, which mentions a sector or policy term, its
      body repeats the title, and its link is the resolved http(s) link,
      on the page's site. */
  lemma PageRecordsAreMatches(res: Resolver, anchors: seq<Anchor>, base: string, k: nat)
    requires k < |PageRecords(res, anchors, base)|
    ensures var it := PageRecords(res, anchors, base)[k];
            it.title != "" && it.content == it.title && it.tags == [] && TextMatches(it.title)
            && StartsWith(it.url, "http") && SameDomain(res, it.url, base)
            && exists i :: 0 <= i < |anchors| && anchors[i].text == it.title
                           && res.join(base, anchors[i].href) == Resolved(it.url)
  {
    var f := a => Candidate(res, base, a);
    var all := FilterMap(anchors, f);
    var it := PageRecords(res, anchors, base)[k];
    assert it == all[k];
    FilterMapElements(anchors, f);
    assert ResultOf(anchors, f, all[k]);
    var i :| 0 <= i < |anchors| && f(anchors[i]) == Some(all[k]);
    assert Candidate(res, base, anchors[i]) == Some(it);
  }

  /** The title of the placeholder record of a page that failed. */
  const FailureTitle: string := "政策抓取失败"

  /** A page as `crawl` sees it: a fetched page whose scan was aborted by
      an unresolvable link fails with that error. */
  function Settled(res: Resolver, src: string, page: Fetch): (p: Fetch)
    ensures page.FetchFailed? ==> p == page
    ensures page.Fetched? && PageOutcome(res, page.anchors, src).Kept? ==> p == page
    ensures page.Fetched? && PageOutcome(res, page.anchors, src).Aborted? ==>
              p == FetchFailed(PageOutcome(res, page.anchors, src).error)
  {
    match page
    case FetchFailed(_) => page
    case Fetched(anchors) =>
      match PageOutcome(res, anchors, src)
      case Kept(_) => page
      case Aborted(e) => FetchFailed(e)
  }

  /** `crawl`: the list pages visited in order, each contributing its kept
      links or, when it cannot be fetched or one of its links cannot be
      resolved, the placeholder. */
  function Crawl(res: Resolver, pages: seq<Fetch>): (r: seq<Item>)
    requires |pages| == |Sources|
    ensures forall i :: 0 <= i < |pages| && Settled(res, Sources[i], pages[i]).FetchFailed? ==>
              Placeholder(FailureTitle, Sources[i], Settled(res, Sources[i], pages[i]).error) in r
  {
    CrawlSettled(res, Sources, pages)
  }

  /** The pages of `sources`, each settled, visited in order. */
  function CrawlSettled(res: Resolver, sources: seq<string>, pages: seq<Fetch>): (r: seq<Item>)
    requires |pages| == |sources|
    ensures forall i :: 0 <= i < |pages| && Settled(res, sources[i], pages[i]).FetchFailed? ==>
              Placeholder(FailureTitle, sources[i], Settled(res, sources[i], pages[i]).error) in r
  {
    CrawlPages((src, anchors) => PageRecords(res, anchors, src), FailureTitle, sources, SettledPages(res, sources, pages))
  }

  /** Every page settled against its list page. */
  function SettledPages(res: Resolver, sources: seq<string>, pages: seq<Fetch>): (r: seq<Fetch>)
    requires |pages| == |sources|
    ensures |r| == |sources|
    ensures forall i :: 0 <= i < |r| ==> r[i] == Settled(res, sources[i], pages[i])
  {
    seq(|sources|, i requires 0 <= i < |sources| => Settled(res, sources[i], pages[i]))
  }

  /** A crawl yields at most sixty records per list page. */
  lemma CrawlBounded(res: Resolver, pages: seq<Fetch>)
    requires |pages| == |Sources|
    ensures |Crawl(res, pages)| <= MaxPerSource * |Sources|
  {
    CrawlBound((src, anchors) => PageRecords(res, anchors, src), FailureTitle, Sources, SettledPages(res, Sources, pages), MaxPerSource);
  }

  /** A fetched page whose first unresolvable link comes before sixty
      records are kept contributes the placeholder with that link's error. */
  lemma UnresolvableLinkFailsPage(res: Resolver, pages: seq<Fetch>, i: nat, k: nat)
    requires |pages| == |Sources| && i < |Sources| && pages[i].Fetched?
    requires k < |pages[i].anchors| && Raises(res, Sources[i], pages[i].anchors[k]).Some?
    requires forall j :: 0 <= j < k ==> Raises(res, Sources[i], pages[i].anchors[j]).None?
    requires |PageRecords(res, pages[i].anchors[..k], Sources[i])| < MaxPerSource
    ensures Placeholder(FailureTitle, Sources[i], Raises(res, Sources[i], pages[i].anchors[k]).value) in Crawl(res, pages)
  {
    FirstRaisingLinkAbortsPage(res, pages[i].anchors, Sources[i], k);
  }

  /** The placeholder's title names policy, so the classifier files it
      under the policy class. */
  lemma FailureTitleIsPolicy(content: string)
    ensures PolicyClassTag in MatchKeywords(FailureTitle + "\n" + content)
  {
    var text := FailureTitle + "\n" + content;
    assert PolicyKeywords[0] == "政策";
    assert OccursAt(FailureTitle, "政策", 0);
    ContainsAppend(FailureTitle, "\n" + content, "政策");
    assert text == FailureTitle + ("\n" + content);
    PolicyTagIffPolicyTerm(text);
  }

  /** A link kept by the text filter passes the orchestrator's relevance
      test: its record (title, newline, the same text as body) is tagged
      with some sector or policy term. */
  lemma MatchedTextIsTagged(title: string)
    requires TextMatches(title)
    ensures exists t :: t in MatchKeywords(title + "\n" + title) && (t in TargetSectors || t in PolicyKeywords)
    ensures |MatchKeywords(title + "\n" + title)| > 0
  {
    var text := title + "\n" + title;
    var t :| (t in TargetSectors || t in PolicyKeywords) && Contains(title, t);
    ContainsAppend(title, "\n" + title, t);
    assert text == title + ("\n" + title);
    assert t in Config.Terms();
    TermTaggedIffOccurs(text, t);
  }
}
