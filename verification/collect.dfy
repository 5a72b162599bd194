/** The shape the anchor-scraping collectors share: a page's anchors are
    turned one at a time into at most one record each, the first few kept
    records are returned, and the pages of a source list are visited in
    order, a page that cannot be fetched yielding one placeholder record
    instead of its links. */
module Collect {
  import opened Optional
  import opened Seqs
  import opened NewsItem

  /** The loop that appends each present `f` result and stops as soon as
      `cap` results are kept: it returns the first `cap` results. */
  method KeepFirst<A, B>(xs: seq<A>, f: A -> Option<B>, cap: nat) returns (results: seq<B>)
    requires cap >= 1
    ensures results == Take(FilterMap(xs, f), cap)
  {
    results := [];
    var i := 0;
    while i < |xs|
      invariant 0 <= i <= |xs|
      invariant results == FilterMap(xs[..i], f)
      invariant |results| < cap
    {
      assert xs[..i + 1] == xs[..i] + [xs[i]];
      FilterMapConcat(xs[..i], [xs[i]], f);
      assert [xs[i]][1..] == [];
      match f(xs[i]) {
        case None =>
        case Some(y) =>
          results := results + [y];
      }
      i := i + 1;
      if |results| >= cap {
        TakeOfPrefix(xs, i, f, cap);
        return;
      }
    }
    assert xs[..i] == xs;
  }

  /** The loop that appends each present `f` result, with no early stop. */
  method KeepAll<A, B>(xs: seq<A>, f: A -> Option<B>) returns (results: seq<B>)
    ensures results == FilterMap(xs, f)
  {
    results := [];
    var i := 0;
    while i < |xs|
      invariant 0 <= i <= |xs|
      invariant results == FilterMap(xs[..i], f)
    {
      assert xs[..i + 1] == xs[..i] + [xs[i]];
      FilterMapConcat(xs[..i], [xs[i]], f);
      assert [xs[i]][1..] == [];
      match f(xs[i]) {
        case None =>
        case Some(y) =>
          results := results + [y];
      }
      i := i + 1;
    }
    assert xs[..i] == xs;
  }

  /** How the scan of a page ends: with the records kept, or with the error
      the processing of one element raised. */
  datatype Scanned<B> = Kept(records: seq<B>) | Aborted(error: string)

  /** The scan from position `i` with `kept` already kept: an element for
      which `fails` holds an error ends the scan with it, any other
      contributes its `f` result, and the scan stops once `cap` results are
      kept. */
  function ScanFrom<A, B>(xs: seq<A>, f: A -> Option<B>, fails: A -> Option<string>, cap: nat,
                          i: nat, kept: seq<B>): Scanned<B>
    requires i <= |xs|
    decreases |xs| - i
  {
    if i == |xs| then Kept(kept)
    else if fails(xs[i]).Some? then Aborted(fails(xs[i]).value)
    else
      var next := kept + (if f(xs[i]).Some? then [f(xs[i]).value] else []);
      if |next| >= cap then Kept(next) else ScanFrom(xs, f, fails, cap, i + 1, next)
  }

  /** The whole scan. One that ends normally keeps the first `cap`
      results, as if nothing could fail; it does end normally when every
      element that raises comes after `cap` results are kept. */
  function Scan<A, B>(xs: seq<A>, f: A -> Option<B>, fails: A -> Option<string>, cap: nat): (r: Scanned<B>)
    requires cap >= 1
    ensures r.Kept? ==> r.records == Take(FilterMap(xs, f), cap)
    ensures (forall k :: 0 <= k < |xs| && fails(xs[k]).Some? ==> cap <= |FilterMap(xs[..k], f)|) ==> r.Kept?
  {
    ScanFromKept(xs, f, fails, cap, 0, []);
    ScanKeeps(xs, f, fails, cap);
    ScanFrom(xs, f, fails, cap, 0, [])
  }

  /** The scan from the start ends normally when every element that raises
      comes after `cap` results are kept. */
  lemma ScanKeeps<A, B>(xs: seq<A>, f: A -> Option<B>, fails: A -> Option<string>, cap: nat)
    requires cap >= 1
    ensures (forall k :: 0 <= k < |xs| && fails(xs[k]).Some? ==> cap <= |FilterMap(xs[..k], f)|) ==>
              ScanFrom(xs, f, fails, cap, 0, []).Kept?
  {
    if forall k :: 0 <= k < |xs| && fails(xs[k]).Some? ==> cap <= |FilterMap(xs[..k], f)| {
      forall k | 0 <= k <= |xs|
        ensures xs[0..k] == xs[..k]
      {
      }
      ScanFromKeeps(xs, f, fails, cap, 0, []);
    }
  }

  /** The results of `xs[i..k]` are those of `xs[i]` followed by those of
      the rest. */
  lemma FilterMapStep<A, B>(xs: seq<A>, f: A -> Option<B>, i: nat, k: nat)
    requires i < k <= |xs|
    ensures FilterMap(xs[i..k], f) == (if f(xs[i]).Some? then [f(xs[i]).value] else []) + FilterMap(xs[i + 1..k], f)
  {
    assert xs[i..k][0] == xs[i];
    assert xs[i..k][1..] == xs[i + 1..k];
  }

  /** A scan resumed at `i` reaches the first raising element `k` before
      `cap` results are kept, and ends with its error. */
  lemma {:induction false} ScanFromAborts<A, B>(xs: seq<A>, f: A -> Option<B>, fails: A -> Option<string>, cap: nat,
                                               i: nat, kept: seq<B>, k: nat)
    requires i <= k < |xs| && fails(xs[k]).Some?
    requires forall j :: i <= j < k ==> fails(xs[j]).None?
    requires |kept| + |FilterMap(xs[i..k], f)| < cap
    ensures ScanFrom(xs, f, fails, cap, i, kept) == Aborted(fails(xs[k]).value)
    decreases k - i
  {
    if i < k {
      var next := kept + (if f(xs[i]).Some? then [f(xs[i]).value] else []);
      FilterMapStep(xs, f, i, k);
      ScanFromAborts(xs, f, fails, cap, i + 1, next, k);
    }
  }

  /** A scan resumed at `i` with fewer than `cap` results kept ends
      normally when every element that raises comes after the cap is
      reached. */
  lemma {:induction false} ScanFromKeeps<A, B>(xs: seq<A>, f: A -> Option<B>, fails: A -> Option<string>, cap: nat,
                                              i: nat, kept: seq<B>)
    requires i <= |xs| && |kept| < cap
    requires forall k :: i <= k < |xs| && fails(xs[k]).Some? ==> cap <= |kept| + |FilterMap(xs[i..k], f)|
    ensures ScanFrom(xs, f, fails, cap, i, kept).Kept?
    decreases |xs| - i
  {
    if i < |xs| {
      assert xs[i..i] == [];
      var next := kept + (if f(xs[i]).Some? then [f(xs[i]).value] else []);
      if |next| < cap {
        forall k | i + 1 <= k < |xs| && fails(xs[k]).Some?
          ensures cap <= |next| + |FilterMap(xs[i + 1..k], f)|
        {
          FilterMapStep(xs, f, i, k);
        }
        ScanFromKeeps(xs, f, fails, cap, i + 1, next);
      }
    }
  }

  /** The first element that raises before `cap` results are kept aborts
      the scan with its error. */
  lemma ScanAborts<A, B>(xs: seq<A>, f: A -> Option<B>, fails: A -> Option<string>, cap: nat, k: nat)
    requires cap >= 1
    requires k < |xs| && fails(xs[k]).Some?
    requires forall j :: 0 <= j < k ==> fails(xs[j]).None?
    requires |FilterMap(xs[..k], f)| < cap
    ensures Scan(xs, f, fails, cap) == Aborted(fails(xs[k]).value)
  {
    assert xs[0..k] == xs[..k];
    ScanFromAborts(xs, f, fails, cap, 0, [], k);
  }

  /** A scan resumed after a prefix that kept fewer than `cap` results
      and raised nothing keeps, when it ends normally, the first `cap`
      results of the whole sequence. */
  lemma {:induction false} ScanFromKept<A, B>(xs: seq<A>, f: A -> Option<B>, fails: A -> Option<string>, cap: nat,
                                             i: nat, kept: seq<B>)
    requires i <= |xs| && kept == FilterMap(xs[..i], f) && |kept| < cap
    ensures ScanFrom(xs, f, fails, cap, i, kept).Kept? ==>
              ScanFrom(xs, f, fails, cap, i, kept).records == Take(FilterMap(xs, f), cap)
    decreases |xs| - i
  {
    if i == |xs| {
      assert xs[..i] == xs;
    } else if fails(xs[i]).None? {
      var next := kept + (if f(xs[i]).Some? then [f(xs[i]).value] else []);
      assert xs[..i + 1] == xs[..i] + [xs[i]];
      FilterMapConcat(xs[..i], [xs[i]], f);
      assert [xs[i]][1..] == [];
      assert next == FilterMap(xs[..i + 1], f);
      if |next| >= cap {
        TakeOfPrefix(xs, i + 1, f, cap);
      } else {
        ScanFromKept(xs, f, fails, cap, i + 1, next);
      }
    }
  }

  /** A scan in which no element fails ends normally. */
  lemma {:induction false} ScanWithoutFailures<A, B>(xs: seq<A>, f: A -> Option<B>, fails: A -> Option<string>, cap: nat,
                                                    i: nat, kept: seq<B>)
    requires i <= |xs|
    ensures (forall j :: i <= j < |xs| ==> fails(xs[j]).None?) ==> ScanFrom(xs, f, fails, cap, i, kept).Kept?
    decreases |xs| - i
  {
    if i < |xs| {
      var next := kept + (if f(xs[i]).Some? then [f(xs[i]).value] else []);
      ScanWithoutFailures(xs, f, fails, cap, i + 1, next);
    }
  }

  /** The loop that appends each present `f` result, stops as soon as `cap`
      results are kept, and ends with the error of the first element whose
      processing raises before that. */
  method KeepFirstUnlessFails<A, B>(xs: seq<A>, f: A -> Option<B>, fails: A -> Option<string>, cap: nat)
    returns (outcome: Scanned<B>)
    requires cap >= 1
    ensures outcome == Scan(xs, f, fails, cap)
    ensures outcome.Kept? ==> outcome.records == Take(FilterMap(xs, f), cap)
  {
    var results := [];
    var i := 0;
    while i < |xs|
      invariant 0 <= i <= |xs|
      invariant ScanFrom(xs, f, fails, cap, i, results) == Scan(xs, f, fails, cap)
    {
      if fails(xs[i]).Some? {
        return Aborted(fails(xs[i]).value);
      }
      if f(xs[i]).Some? {
        results := results + [f(xs[i]).value];
      } else {
        assert results + [] == results;
      }
      i := i + 1;
      if |results| >= cap {
        return Kept(results);
      }
    }
    outcome := Kept(results);
  }

  /** Once a prefix has produced `n` results, the rest cannot change the
      first `n`. */
  lemma TakeOfPrefix<A, B>(xs: seq<A>, i: nat, f: A -> Option<B>, n: nat)
    requires i <= |xs|
    requires |FilterMap(xs[..i], f)| == n
    ensures Take(FilterMap(xs, f), n) == FilterMap(xs[..i], f)
  {
    assert xs == xs[..i] + xs[i..];
    FilterMapConcat(xs[..i], xs[i..], f);
  }

  /** The record standing in for a page that could not be fetched: the
      collector's failure title, the page and the error in the body, and
      the page as link. */
  function Placeholder(title: string, src: string, error: string): (it: Item)
    ensures it.title == title && it.url == src && it.tags == []
  {
    Untagged(title, "源: " + src + " 错误: " + error, src)
  }

  /** The records one page yields: what `extract` makes of its anchors,
      or the placeholder. */
  function PageOrPlaceholder(extract: (string, seq<Anchor>) -> seq<Item>, failureTitle: string,
                             src: string, page: Fetch): (r: seq<Item>)
    ensures page.FetchFailed? ==> r == [Placeholder(failureTitle, src, page.error)]
    ensures page.Fetched? ==> r == extract(src, page.anchors)
  {
    match page
    case Fetched(anchors) => extract(src, anchors)
    case FetchFailed(e) => [Placeholder(failureTitle, src, e)]
  }

  /** `crawl`: the pages visited in order, each contributing its records;
      no page that cannot be fetched goes unreported. */
  function CrawlPages(extract: (string, seq<Anchor>) -> seq<Item>, failureTitle: string,
                      sources: seq<string>, pages: seq<Fetch>): (r: seq<Item>)
    requires |pages| == |sources|
    ensures forall i :: 0 <= i < |pages| && pages[i].FetchFailed? ==>
              Placeholder(failureTitle, sources[i], pages[i].error) in r
    decreases |sources|
  {
    if |sources| == 0 then []
    else
      var head := PageOrPlaceholder(extract, failureTitle, sources[0], pages[0]);
      var rest := CrawlPages(extract, failureTitle, sources[1..], pages[1..]);
      assert forall i :: 1 <= i < |pages| ==> pages[1..][i - 1] == pages[i] && sources[1..][i - 1] == sources[i];
      head + rest
  }

  /** A crawl of one page is what that page contributes: its extracted
      records when it was fetched, its placeholder when it failed. With
      `CrawlConcat` this fixes the whole crawl. */
  lemma CrawlOnePage(extract: (string, seq<Anchor>) -> seq<Item>, failureTitle: string,
                     src: string, page: Fetch)
    ensures CrawlPages(extract, failureTitle, [src], [page]) == PageOrPlaceholder(extract, failureTitle, src, page)
  {
    assert [src][1..] == [] && [page][1..] == [];
  }

  /** No page contributes more than `cap` records when no extraction
      yields more than `cap`. */
  lemma {:induction false} CrawlBound(extract: (string, seq<Anchor>) -> seq<Item>, failureTitle: string,
                                      sources: seq<string>, pages: seq<Fetch>, cap: nat)
    requires |pages| == |sources|
    requires cap >= 1
    requires forall i :: 0 <= i < |pages| && pages[i].Fetched? ==>
               |extract(sources[i], pages[i].anchors)| <= cap
    ensures |CrawlPages(extract, failureTitle, sources, pages)| <= cap * |sources|
    decreases |sources|
  {
    if |sources| > 0 {
      assert forall i :: 0 <= i < |pages[1..]| ==> pages[1..][i] == pages[i + 1] && sources[1..][i] == sources[i + 1];
      CrawlBound(extract, failureTitle, sources[1..], pages[1..], cap);
      var head := PageOrPlaceholder(extract, failureTitle, sources[0], pages[0]);
      assert |head| <= cap;
      assert cap * |sources| == cap + cap * (|sources| - 1);
    }
  }

  /** A failing page affects only its own contribution: the crawl of two
      runs of pages is the crawl of each. */
  lemma {:induction false} CrawlConcat(extract: (string, seq<Anchor>) -> seq<Item>, failureTitle: string,
                                       s1: seq<string>, p1: seq<Fetch>, s2: seq<string>, p2: seq<Fetch>)
    requires |p1| == |s1| && |p2| == |s2|
    ensures CrawlPages(extract, failureTitle, s1 + s2, p1 + p2) ==
            CrawlPages(extract, failureTitle, s1, p1) + CrawlPages(extract, failureTitle, s2, p2)
    decreases |s1|
  {
    if |s1| > 0 {
      var head := PageOrPlaceholder(extract, failureTitle, s1[0], p1[0]);
      assert (s1 + s2)[1..] == s1[1..] + s2 && (s1 + s2)[0] == s1[0];
      assert (p1 + p2)[1..] == p1[1..] + p2 && (p1 + p2)[0] == p1[0];
      assert CrawlPages(extract, failureTitle, s1 + s2, p1 + p2) ==
             head + CrawlPages(extract, failureTitle, s1[1..] + s2, p1[1..] + p2);
      CrawlConcat(extract, failureTitle, s1[1..], p1[1..], s2, p2);
      ConcatAssoc(head, CrawlPages(extract, failureTitle, s1[1..], p1[1..]),
                  CrawlPages(extract, failureTitle, s2, p2));
    } else {
      assert s1 + s2 == s2 && p1 + p2 == p2;
    }
  }

  /** With every page failing, the crawl is one placeholder per page, in
      page order. */
  lemma {:induction false} AllPagesFailed(extract: (string, seq<Anchor>) -> seq<Item>, failureTitle: string,
                                          sources: seq<string>, pages: seq<Fetch>)
    requires |pages| == |sources|
    requires forall i :: 0 <= i < |pages| ==> pages[i].FetchFailed?
    ensures |CrawlPages(extract, failureTitle, sources, pages)| == |sources|
    ensures forall i :: 0 <= i < |sources| ==>
              CrawlPages(extract, failureTitle, sources, pages)[i] ==
              Placeholder(failureTitle, sources[i], pages[i].error)
    decreases |sources|
  {
    if |sources| > 0 {
      assert forall i :: 0 <= i < |pages[1..]| ==> pages[1..][i] == pages[i + 1] && sources[1..][i] == sources[i + 1];
      AllPagesFailed(extract, failureTitle, sources[1..], pages[1..]);
    }
  }
}
