/** The AI-portal collector of `news_crawler/ai_news.py`: from each portal's
    page it keeps the http(s) links whose text mentions one of a fixed list
    of AI words, at most forty per page; a page that cannot be fetched
    yields one placeholder record. Page fetching, HTML parsing and the
    pause between pages are outside the model. */
module AiNews {
  import opened Optional
  import opened Seqs
  import opened Strs
  import opened NewsItem
  import opened Keywords
  import opened Collect

  /** The portal pages visited, in visiting order. */
  const Sources: seq<string> := ["https://www.qbitai.com/", "https://www.jiqizhixin.com/news"]

  /** At most this many records are kept from one page. */
  const MaxPerSource: nat := 40

  /** The title of the placeholder record of a page that failed. */
  const FailureTitle: string := "AI新闻抓取失败"

  /** A link text is kept when one of these words occurs in it. */
  const FilterWords: seq<string> := [
    "模型", "大模型", "LLM", "AI", "多模态", "发布", "开源", "推理", "评测", "对齐", "指令"
  ]

  /** The collector's own link resolution: a site-rooted link is appended to
      the page address, one trailing `/` of the address dropped first; any
      other link is kept as written. */
  function Resolve(href: string, base: string): (r: string)
    ensures !StartsWith(href, "/") ==> r == href
    ensures StartsWith(href, "/") && EndsWith(base, "/") ==> r == base + href[1..]
    ensures StartsWith(href, "/") && !EndsWith(base, "/") ==> r == base + href
  {
    if StartsWith(href, "/") then
      if EndsWith(base, "/") then
        assert base == base[..|base| - 1] + "/";
        assert href == "/" + href[1..];
        base[..|base| - 1] + href
      else base + href
    else href
  }

  /** A site-rooted link on a page whose address ends with `/` is joined
      with exactly one `/` between address and path. */
  lemma ResolveSingleSlash(href: string, base: string)
    requires StartsWith(href, "/") && EndsWith(base, "/")
    ensures StartsWith(Resolve(href, base), base)
    ensures Resolve(href, base)[|base|..] == href[1..]
  {
  }

  /** What one anchor contributes: `None` when its text or link is empty,
      when the resolved link is not http(s), or when its text holds no
      filter word; otherwise a record whose body repeats its title. */
  function Candidate(base: string, a: Anchor): (r: Option<Item>)
    ensures r.Some? ==> r.value == Untagged(a.text, a.text, Resolve(a.href, base))
    ensures r.Some? <==> a.text != "" && a.href != "" && StartsWith(Resolve(a.href, base), "http")
                         && MatchesAny(FilterWords, a.text)
  {
    if a.text == "" || a.href == "" then None
    else
      var url := Resolve(a.href, base);
      if !StartsWith(url, "http") then None
      else if MatchesAny(FilterWords, a.text) then Some(Untagged(a.text, a.text, url))
      else None
  }

  /** The records of one page: the first forty anchor contributions. */
  function PageRecords(anchors: seq<Anchor>, base: string): (r: seq<Item>)
    ensures |r| <= MaxPerSource
  {
    Take(FilterMap(anchors, a => Candidate(base, a)), MaxPerSource)
  }

  /** `_extract`: the loop over the page's anchors, which stops as soon as
      forty records are kept. */
  method Extract(anchors: seq<Anchor>, base: string) returns (results: seq<Item>)
    ensures results == PageRecords(anchors, base)
  {
    results := KeepFirst(anchors, a => Candidate(base, a), MaxPerSource);
  }

  /** Every kept record comes from one anchor of the page: its title is the
      anchor's non-empty text, in which a filter word occurs, its body
      repeats the title, and its link is the anchor's resolved http(s)
      link. */
  lemma PageRecordsAreAiLinks(anchors: seq<Anchor>, base: string, k: nat)
    requires k < |PageRecords(anchors, base)|
    ensures var it := PageRecords(anchors, base)[k];
            it.title != "" && it.content == it.title && it.tags == [] && AnyHit(FilterWords, it.title)
            && StartsWith(it.url, "http")
            && exists i :: 0 <= i < |anchors| && anchors[i].text == it.title
                           && it.url == Resolve(anchors[i].href, base)
  {
    var f := a => Candidate(base, a);
    var all := FilterMap(anchors, f);
    var it := PageRecords(anchors, base)[k];
    assert it == all[k];
    FilterMapElements(anchors, f);
    assert ResultOf(anchors, f, all[k]);
    var i :| 0 <= i < |anchors| && f(anchors[i]) == Some(all[k]);
    assert Candidate(base, anchors[i]) == Some(it);
  }

  /** `crawl`: the portal pages visited in order, each contributing its
      kept links or, when it cannot be fetched, the placeholder. */
  function Crawl(pages: seq<Fetch>): (r: seq<Item>)
    requires |pages| == |Sources|
    ensures forall i :: 0 <= i < |pages| && pages[i].FetchFailed? ==>
              Placeholder(FailureTitle, Sources[i], pages[i].error) in r
  {
    CrawlPages((src, anchors) => PageRecords(anchors, src), FailureTitle, Sources, pages)
  }

  /** A crawl yields at most forty records per portal page. */
  lemma CrawlBounded(pages: seq<Fetch>)
    requires |pages| == |Sources|
    ensures |Crawl(pages)| <= MaxPerSource * |Sources|
  {
    CrawlBound((src, anchors) => PageRecords(anchors, src), FailureTitle, Sources, pages, MaxPerSource);
  }

  /** A kept title whose filter word is also one of the classifier's AI
      terms (seven of the eleven are) is filed under the AI industry. */
  lemma AiWordIsAiIndustry(title: string, w: string)
    requires w in AiKeywords && Contains(title, w)
    ensures AiIndustryTag in MatchKeywords(title + "\n" + title)
  {
    var text := title + "\n" + title;
    assert AnyHit(AiKeywords, text) by {
      ContainsAppend(title, "\n" + title, w);
      assert text == title + ("\n" + title);
    }
    AiTagIffAiTerm(text);
  }
}
