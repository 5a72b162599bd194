/** The government-portal collector of `news_crawler/policy_watch.py`: from
    each of two list pages it keeps the http(s) links whose text has at
    least six characters, at most eighty per page; a page that cannot be
    fetched yields one placeholder record, titled like the multi-authority
    collector's. Page fetching and HTML parsing are outside the model. */
module PolicyWatch {
  import opened Optional
  import opened Seqs
  import opened Strs
  import opened NewsItem
  import opened Collect
  import PolicySources

  /** The list pages visited, in visiting order. */
  const Pages: seq<string> := ["https://www.gov.cn/yaowen/index.htm", "https://www.gov.cn/zhengce/index.htm"]

  /** The site a rooted link is resolved against. */
  const Site: string := "https://www.gov.cn"

  /** The shortest link text kept. */
  const MinTitleLength: nat := 6

  /** At most this many records are kept from one page. */
  const MaxPerPage: nat := 80

  /** A site-rooted link is put on the portal's site; any other link is kept
      as written. */
  function Absolute(href: string): (r: string)
    ensures StartsWith(href, "/") ==> StartsWith(r, Site) && r[|Site|..] == href
    ensures !StartsWith(href, "/") ==> r == href
  {
    if StartsWith(href, "/") then Site + href else href
  }

  /** What one anchor contributes: a record whose body repeats its title
      when its text and link are non-empty, the resolved link is http(s)
      and the text has at least six characters. */
  function Candidate(a: Anchor): (r: Option<Item>)
    ensures r.Some? ==> r.value == Untagged(a.text, a.text, Absolute(a.href))
    ensures r.Some? <==> a.text != "" && a.href != "" && StartsWith(Absolute(a.href), "http")
                         && |a.text| >= MinTitleLength
  {
    if a.text == "" || a.href == "" then None
    else
      var url := Absolute(a.href);
      if StartsWith(url, "http") && |a.text| >= MinTitleLength then Some(Untagged(a.text, a.text, url))
      else None
  }

  /** The records of one page: the first eighty anchor contributions. */
  function PageRecords(anchors: seq<Anchor>): (r: seq<Item>)
    ensures |r| <= MaxPerPage
  {
    Take(FilterMap(anchors, Candidate), MaxPerPage)
  }

  /** `_extract`: every anchor is scanned, then the list is cut to eighty. */
  method Extract(anchors: seq<Anchor>) returns (results: seq<Item>)
    ensures results == PageRecords(anchors)
  {
    var items := KeepAll(anchors, Candidate);
    results := Take(items, MaxPerPage);
  }

  /** Every kept record comes from one anchor: a title of at least six
      characters, repeated as body, and an http(s) link that is the anchor's
      link, put on the portal's site when it was rooted. */
  lemma PageRecordsAreLongLinks(anchors: seq<Anchor>, k: nat)
    requires k < |PageRecords(anchors)|
    ensures var it := PageRecords(anchors)[k];
            |it.title| >= MinTitleLength && it.content == it.title && it.tags == []
            && StartsWith(it.url, "http")
            && exists i :: 0 <= i < |anchors| && anchors[i].text == it.title
                           && it.url == Absolute(anchors[i].href)
  {
    var all := FilterMap(anchors, Candidate);
    var it := PageRecords(anchors)[k];
    assert it == all[k];
    FilterMapElements(anchors, Candidate);
    assert ResultOf(anchors, Candidate, all[k]);
    var i :| 0 <= i < |anchors| && Candidate(anchors[i]) == Some(all[k]);
  }

  /** `crawl`: both list pages visited in order, each contributing its kept
      links or, when it cannot be fetched, the placeholder. */
  function Crawl(pages: seq<Fetch>): (r: seq<Item>)
    requires |pages| == |Pages|
    ensures forall i :: 0 <= i < |pages| && pages[i].FetchFailed? ==>
              Placeholder(PolicySources.FailureTitle, Pages[i], pages[i].error) in r
  {
    CrawlPages((src, anchors) => PageRecords(anchors), PolicySources.FailureTitle, Pages, pages)
  }

  /** A crawl yields at most eighty records per list page. */
  lemma CrawlBounded(pages: seq<Fetch>)
    requires |pages| == |Pages|
    ensures |Crawl(pages)| <= MaxPerPage * |Pages|
  {
    CrawlBound((src, anchors) => PageRecords(anchors), PolicySources.FailureTitle, Pages, pages, MaxPerPage);
  }
}
