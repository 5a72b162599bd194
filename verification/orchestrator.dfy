/** The orchestration loop of `news_crawler/__init__.py`: every crawler's
    output is tagged, the two gold-price sources are collapsed to one
    snapshot, items already in the seen-ledger are dropped, and the
    survivors are de-duplicated by `(url, title)` before the ledger is
    flushed. Crawler outputs are inputs; the whole run uses one clock
    reading `now`. */
module Orchestrator {
  import opened Optional
  import opened Seqs
  import opened NewsItem
  import opened Keywords
  import opened SeenLedger

  /** A keyword classifier; the source uses `MatchKeywords`. */
  type Tagger = string -> seq<string>

  /** The crawler classes the loop instantiates. */
  datatype Crawler =
    | EastMoneyFlash | EastMoneyFund | ChinaNews | GoldPrice | SinaGoldPrice
    | SectorOpen | PolicyWatch | MultiPolicy | AINews | AIOfficialBlogs
    | AIResearch | AIPlatform

  /** The crawlers the loop runs, in order. */
  const Roster: seq<Crawler> := [
    EastMoneyFlash, EastMoneyFund, ChinaNews, GoldPrice, SinaGoldPrice, SectorOpen,
    PolicyWatch, MultiPolicy, AINews, AIOfficialBlogs, AIResearch, AIPlatform
  ]

  /** What one `crawl()` call did: raised, or returned a list of records. */
  datatype Outcome = Raised(error: string) | Returned(items: seq<Item>)

  /** One crawler of the loop with the outcome of its call. */
  datatype Run = Run(crawler: Crawler, outcome: Outcome)

  /** The list the loop goes on with; a raising crawler counts as `[]`. */
  function Result(o: Outcome): seq<Item>
  {
    match o
    case Raised(_) => []
    case Returned(items) => items
  }

  /** The two gold-price crawlers, whose outputs are collapsed. */
  predicate IsGold(run: Run)
  {
    run.crawler == GoldPrice || run.crawler == SinaGoldPrice
  }

  /** Every crawler but the gold-price ones. */
  predicate NotGold(run: Run)
  {
    !IsGold(run)
  }

  /** A gold crawler with a non-empty result claims the single gold slot. */
  predicate TakesGold(run: Run)
  {
    IsGold(run) && |Result(run.outcome)| > 0
  }

  /** The text the classifier reads: title, a newline, content. */
  function TagText(it: Item): string
  {
    it.title + "\n" + it.content
  }

  /** Some keyword matched the item's text. */
  predicate Relevant(tag: Tagger, it: Item)
  {
    |tag(TagText(it))| > 0
  }

  /** The record after `item["tags"] = tags`, which happens only when the
      classifier returned some tag. */
  function Retag(tag: Tagger, it: Item): (r: Item)
    ensures r.title == it.title && r.content == it.content && r.url == it.url
    ensures Relevant(tag, it) ==> r.tags == tag(TagText(it))
    ensures !Relevant(tag, it) ==> r == it
  {
    var tags := tag(TagText(it));
    if |tags| > 0 then it.(tags := tags) else it
  }

  /** Carries the tags the classifier gives its own text, and has some. */
  predicate WellTagged(tag: Tagger, it: Item)
  {
    |it.tags| > 0 && it.tags == tag(TagText(it))
  }

  /** The seen-ledger key: the url, or the title when the url is empty. */
  function LedgerKey(it: Item): string
  {
    if it.url != "" then it.url else it.title
  }

  /** The key of the final de-duplication. */
  function PairKey(it: Item): (string, string)
  {
    (it.url, it.title)
  }

  /** How the two keys tell records apart. Records with the same url share
      a ledger key whatever their titles, though their pair keys differ
      when the titles do; url-less records share a ledger key exactly when
      their titles agree; and a url-less record whose title spells another
      record's url collides with it in the ledger. */
  lemma KeysCompared(a: Item, b: Item)
    ensures PairKey(a) == PairKey(b) <==> a.url == b.url && a.title == b.title
    ensures a.url != "" && a.url == b.url ==> LedgerKey(a) == LedgerKey(b)
    ensures a.url == "" && b.url == "" ==> (LedgerKey(a) == LedgerKey(b) <==> a.title == b.title)
    ensures a.url != "" && b.url == "" && b.title == a.url ==> LedgerKey(a) == LedgerKey(b)
  {
  }

  /** `_deduplicate`: the first record of each `(url, title)` pair, in
      input order. */
  function Deduplicate(items: seq<Item>): (r: seq<Item>)
    ensures DistinctBy(r, PairKey)
    ensures IsSubseq(r, items)
    ensures Keys(items, PairKey) == Keys(r, PairKey)
    ensures r == Firsts(items, PairKey, {})
  {
    DedupByIsSubseq(items, PairKey, {});
    DedupByIsFirsts(items, PairKey, {});
    DedupByKeys(items, PairKey, {});
    assert {} + Keys(items, PairKey) == Keys(items, PairKey);
    DedupBy(items, PairKey, {})
  }

  /** De-duplicating twice is de-duplicating once. */
  lemma DeduplicateIdempotent(items: seq<Item>)
    ensures Deduplicate(Deduplicate(items)) == Deduplicate(items)
  {
    DedupByIdempotent(items, PairKey);
  }

  // The loop as the source writes it.

  /** The loop's state: the records emitted so far, the ledger, and whether
      a gold snapshot has been chosen. */
  datatype Acc = Acc(emitted: seq<Item>, ledger: Ledger, goldTaken: bool)

  /** What every step of the loop keeps: emitted records are only
      appended, ledger keys are only added, the retention stays, and a taken
      gold slot stays taken. */
  predicate Grows(before: Acc, after: Acc)
  {
    && before.emitted <= after.emitted
    && before.ledger.data.Keys <= after.ledger.data.Keys
    && after.ledger.retentionDays == before.ledger.retentionDays
    && (before.goldTaken ==> after.goldTaken)
  }

  /** Emits a record and marks its key, unless its key was seen. */
  function Admit(acc: Acc, it: Item, now: int): (r: Acc)
    ensures Grows(acc, r) && r.goldTaken == acc.goldTaken
    ensures Seen(r.ledger, LedgerKey(it))
    ensures Seen(acc.ledger, LedgerKey(it)) ==> r == acc
    ensures !Seen(acc.ledger, LedgerKey(it)) ==> r.emitted == acc.emitted + [it]
  {
    var key := LedgerKey(it);
    if Seen(acc.ledger, key) then acc
    else acc.(emitted := acc.emitted + [it], ledger := Mark(acc.ledger, key, now))
  }

  /** The inner loop over a regular crawler's records: what it emits is
      tagged with the classifier's tags of its own text. */
  function Scan(tag: Tagger, acc: Acc, items: seq<Item>, now: int): (r: Acc)
    ensures Grows(acc, r) && r.goldTaken == acc.goldTaken
    ensures forall i :: |acc.emitted| <= i < |r.emitted| ==> WellTagged(tag, r.emitted[i])
    decreases |items|
  {
    if |items| == 0 then acc
    else
      var it := items[0];
      var next := if Relevant(tag, it) then Admit(acc, Retag(tag, it), now) else acc;
      var r := Scan(tag, next, items[1..], now);
      assert forall i :: |acc.emitted| <= i < |next.emitted| ==> r.emitted[i] == next.emitted[i];
      r
  }

  /** One iteration of the outer loop. */
  function Step(tag: Tagger, acc: Acc, run: Run, now: int): (r: Acc)
    ensures Grows(acc, r)
    ensures r.goldTaken == (acc.goldTaken || TakesGold(run))
  {
    var result := Result(run.outcome);
    if NotGold(run) then Scan(tag, acc, result, now)
    else if acc.goldTaken || |result| == 0 then acc
    else Admit(acc, Retag(tag, result[0]), now).(goldTaken := true)
  }

  /** The outer loop over the crawlers' runs, in order. */
  function Loop(tag: Tagger, acc: Acc, runs: seq<Run>, now: int): (r: Acc)
    ensures Grows(acc, r)
    ensures r.goldTaken <==> acc.goldTaken || exists j :: 0 <= j < |runs| && TakesGold(runs[j])
    decreases |runs|
  {
    if |runs| == 0 then acc
    else
      var r := Loop(tag, Step(tag, acc, runs[0], now), runs[1..], now);
      assert (exists j :: 0 <= j < |runs| && TakesGold(runs[j])) <==>
             TakesGold(runs[0]) || exists j :: 0 <= j < |runs[1..]| && TakesGold(runs[1..][j]) by {
        if exists j :: 0 <= j < |runs| && TakesGold(runs[j]) {
          var j :| 0 <= j < |runs| && TakesGold(runs[j]);
          if j > 0 { assert runs[1..][j - 1] == runs[j]; }
        }
      }
      r
  }

  /** The returned list and the ledger after the final `flush()`. */
  datatype Report = Report(news: seq<Item>, flushed: Flushed)

  /** `run_all_crawlers` against a ledger loaded before the run. */
  function RunAll(tag: Tagger, runs: seq<Run>, ledger: Ledger, now: int): (r: Report)
    ensures DistinctBy(r.news, PairKey)
    ensures r.flushed.written == r.flushed.ledger.data
  {
    var acc := Loop(tag, Acc([], ledger, false), runs, now);
    Report(Deduplicate(acc.emitted), Flush(acc.ledger, now))
  }

  // A reference reading of the loop: first decide what each crawler puts
  // forward, then check the ledger once over the whole list.

  /** The relevant records of a list, tagged, in order. */
  function Retagged(tag: Tagger, items: seq<Item>): (r: seq<Item>)
    ensures forall i :: 0 <= i < |r| ==> WellTagged(tag, r[i])
    decreases |items|
  {
    if |items| == 0 then []
    else (if Relevant(tag, items[0]) then [Retag(tag, items[0])] else []) + Retagged(tag, items[1..])
  }

  /** What one crawler puts forward, given whether the gold slot is taken:
      its tagged records, or for a gold crawler the first record alone. */
  function Offer(tag: Tagger, run: Run, goldTaken: bool): seq<Item>
  {
    var result := Result(run.outcome);
    if NotGold(run) then Retagged(tag, result)
    else if goldTaken || |result| == 0 then []
    else [Retag(tag, result[0])]
  }

  /** Everything the crawlers put forward, in loop order. */
  function Candidates(tag: Tagger, runs: seq<Run>, goldTaken: bool): seq<Item>
    decreases |runs|
  {
    if |runs| == 0 then []
    else Offer(tag, runs[0], goldTaken) + Candidates(tag, runs[1..], goldTaken || TakesGold(runs[0]))
  }

  /** The position of the first crawler that takes the gold slot. */
  function FirstGold(runs: seq<Run>): (r: Option<nat>)
    ensures r.Some? ==> r.value < |runs| && TakesGold(runs[r.value])
    ensures r.Some? ==> forall j :: 0 <= j < r.value ==> !TakesGold(runs[j])
    ensures r.None? ==> forall j :: 0 <= j < |runs| ==> !TakesGold(runs[j])
    decreases |runs|
  {
    if |runs| == 0 then None
    else if TakesGold(runs[0]) then Some(0)
    else match FirstGold(runs[1..])
      case None => None
      case Some(i) => Some(i + 1)
  }

  /** The snapshot the gold slot holds, if any crawler filled it. */
  function GoldSnapshot(tag: Tagger, runs: seq<Run>): (r: Option<Item>)
    ensures r.Some? <==> exists j :: 0 <= j < |runs| && TakesGold(runs[j])
  {
    match FirstGold(runs)
    case None => None
    case Some(i) => Some(Retag(tag, Result(runs[i].outcome)[0]))
  }

  /** Marks the ledger key of each record, in order. */
  function MarkEach(l: Ledger, items: seq<Item>, now: int): (r: Ledger)
    ensures r.retentionDays == l.retentionDays
    ensures forall k :: Seen(r, k) <==> Seen(l, k) || k in Keys(items, LedgerKey)
    ensures forall k :: k in Keys(items, LedgerKey) ==> k in r.data && r.data[k] == now
    ensures forall k :: k in l.data && k !in Keys(items, LedgerKey) ==>
      k in r.data && r.data[k] == l.data[k]
    decreases |items|
  {
    if |items| == 0 then l
    else
      var rest := items[1..];
      assert Keys(items, LedgerKey) == {LedgerKey(items[0])} + Keys(rest, LedgerKey) by {
        assert items == [items[0]] + rest;
        KeysConcat([items[0]], rest, LedgerKey);
        assert LedgerKey([items[0]][0]) in Keys([items[0]], LedgerKey);
      }
      MarkEach(Mark(l, LedgerKey(items[0]), now), rest, now)
  }

  /** The records the reference reading emits: the candidates whose ledger
      key is neither in the loaded ledger nor taken by an earlier candidate. */
  function Emitted(tag: Tagger, runs: seq<Run>, ledger: Ledger): (r: seq<Item>)
    ensures DistinctBy(r, LedgerKey)
    ensures Keys(r, LedgerKey) !! ledger.data.Keys
    ensures Keys(Candidates(tag, runs, false), LedgerKey) <= ledger.data.Keys + Keys(r, LedgerKey)
  {
    DedupBy(Candidates(tag, runs, false), LedgerKey, ledger.data.Keys)
  }

  // The loop computes the reference reading.

  /** Marking two lists is marking the first, then the second. */
  lemma MarkEachConcat(l: Ledger, a: seq<Item>, b: seq<Item>, now: int)
    ensures MarkEach(l, a + b, now) == MarkEach(MarkEach(l, a, now), b, now)
    decreases |a|
  {
    if |a| > 0 {
      assert (a + b)[0] == a[0] && (a + b)[1..] == a[1..] + b;
      MarkEachConcat(Mark(l, LedgerKey(a[0]), now), a[1..], b, now);
    } else {
      assert a + b == b;
    }
  }

  /** The inner loop emits the tagged records whose keys are new, first
      occurrence first, and marks exactly those. */
  lemma {:induction false} ScanIsLedgerDedup(tag: Tagger, acc: Acc, items: seq<Item>, now: int)
    ensures var d := DedupBy(Retagged(tag, items), LedgerKey, acc.ledger.data.Keys);
      Scan(tag, acc, items, now) == acc.(emitted := acc.emitted + d, ledger := MarkEach(acc.ledger, d, now))
    decreases |items|
  {
    if |items| > 0 {
      var it, rest := items[0], items[1..];
      var seen := acc.ledger.data.Keys;
      if !Relevant(tag, it) {
        ScanIsLedgerDedup(tag, acc, rest, now);
        assert Retagged(tag, items) == Retagged(tag, rest);
      } else {
        var y := Retag(tag, it);
        var k := LedgerKey(y);
        var tail := Retagged(tag, rest);
        assert Retagged(tag, items) == [y] + tail;
        assert ([y] + tail)[0] == y && ([y] + tail)[1..] == tail;
        if k in seen {
          ScanIsLedgerDedup(tag, acc, rest, now);
        } else {
          var acc1 := Admit(acc, y, now);
          ScanIsLedgerDedup(tag, acc1, rest, now);
          assert acc1.ledger.data.Keys == seen + {k};
          var d1 := DedupBy(tail, LedgerKey, seen + {k});
          assert DedupBy([y] + tail, LedgerKey, seen) == [y] + d1;
          assert ([y] + d1)[0] == y && ([y] + d1)[1..] == d1;
          ConcatAssoc(acc.emitted, [y], d1);
        }
      }
    } else {
      assert acc.emitted + [] == acc.emitted;
    }
  }

  /** One crawler's iteration emits its new offered records and marks them,
      and the gold slot is taken once a gold crawler returned something. */
  lemma StepIsLedgerDedup(tag: Tagger, acc: Acc, run: Run, now: int)
    ensures var d := DedupBy(Offer(tag, run, acc.goldTaken), LedgerKey, acc.ledger.data.Keys);
      Step(tag, acc, run, now) == Acc(acc.emitted + d, MarkEach(acc.ledger, d, now),
                                 acc.goldTaken || TakesGold(run))
  {
    var result := Result(run.outcome);
    if NotGold(run) {
      ScanIsLedgerDedup(tag, acc, result, now);
    } else if acc.goldTaken || |result| == 0 {
      assert acc.emitted + [] == acc.emitted;
    } else {
      var y := Retag(tag, result[0]);
      assert [y][1..] == [];
      assert acc.emitted + [] == acc.emitted;
    }
  }

  /** The whole loop emits the new candidates, first occurrence first, and
      marks exactly those. */
  lemma {:induction false} LoopIsLedgerDedup(tag: Tagger, acc: Acc, runs: seq<Run>, now: int)
    ensures var d := DedupBy(Candidates(tag, runs, acc.goldTaken), LedgerKey, acc.ledger.data.Keys);
      Loop(tag, acc, runs, now) == Acc(acc.emitted + d, MarkEach(acc.ledger, d, now),
                                  acc.goldTaken || FirstGold(runs).Some?)
    decreases |runs|
  {
    var seen := acc.ledger.data.Keys;
    if |runs| == 0 {
      assert acc.emitted + [] == acc.emitted;
    } else {
      var run, rest := runs[0], runs[1..];
      var offer := Offer(tag, run, acc.goldTaken);
      var g1 := acc.goldTaken || TakesGold(run);
      var d0 := DedupBy(offer, LedgerKey, seen);
      StepIsLedgerDedup(tag, acc, run, now);
      var acc1 := Step(tag, acc, run, now);
      LoopIsLedgerDedup(tag, acc1, rest, now);
      assert acc1.ledger.data.Keys == seen + Keys(d0, LedgerKey);
      DedupByKeys(offer, LedgerKey, seen);
      var later := Candidates(tag, rest, g1);
      DedupByConcat(offer, later, LedgerKey, seen);
      var d1 := DedupBy(later, LedgerKey, seen + Keys(offer, LedgerKey));
      MarkEachConcat(acc.ledger, d0, d1, now);
      ConcatAssoc(acc.emitted, d0, d1);
    }
  }

  /** `run_all_crawlers` returns exactly the reference reading's records:
      the final `(url, title)` pass removes nothing, since the ledger check
      already kept one record per ledger key. The flushed ledger is the
      loaded one with those keys marked at `now`, then purged. */
  lemma RunAllIsLedgerDedup(tag: Tagger, runs: seq<Run>, ledger: Ledger, now: int)
    ensures RunAll(tag, runs, ledger, now).news == Emitted(tag, runs, ledger)
    ensures RunAll(tag, runs, ledger, now).flushed
         == Flush(MarkEach(ledger, Emitted(tag, runs, ledger), now), now)
  {
    var e := Emitted(tag, runs, ledger);
    var acc := Loop(tag, Acc([], ledger, false), runs, now);
    assert acc.emitted == e && acc.ledger == MarkEach(ledger, e, now) by {
      LoopIsLedgerDedup(tag, Acc([], ledger, false), runs, now);
      assert [] + e == e;
    }
    assert Deduplicate(e) == e by {
      DistinctByFiner(e, PairKey, LedgerKey);
      DedupByKeepsDistinct(e, PairKey, {});
    }
  }

  // Properties of the run.

  /** The candidates of two runs of crawlers are those of the first, then
      those of the second with the gold slot as the first left it. */
  lemma {:induction false} CandidatesConcat(tag: Tagger, a: seq<Run>, b: seq<Run>, goldTaken: bool)
    ensures Candidates(tag, a + b, goldTaken)
         == Candidates(tag, a, goldTaken) + Candidates(tag, b, goldTaken || FirstGold(a).Some?)
    decreases |a|
  {
    if |a| == 0 {
      assert a + b == b;
    } else {
      assert (a + b)[0] == a[0] && (a + b)[1..] == a[1..] + b;
      CandidatesConcat(tag, a[1..], b, goldTaken || TakesGold(a[0]));
    }
  }

  /** A crawler that raises contributes nothing: the run is the same as if
      that crawler were not in the list. */
  lemma RaisedContributesNothing(tag: Tagger, a: seq<Run>, b: seq<Run>, crawler: Crawler, error: string,
                                 ledger: Ledger, now: int)
    ensures RunAll(tag, a + [Run(crawler, Raised(error))] + b, ledger, now) == RunAll(tag, a + b, ledger, now)
  {
    var failed := Run(crawler, Raised(error));
    RaisedPutsNothingForward(tag, a, b, failed);
    assert Emitted(tag, a + [failed] + b, ledger) == Emitted(tag, a + b, ledger);
    RunAllIsLedgerDedup(tag, a + [failed] + b, ledger, now);
    RunAllIsLedgerDedup(tag, a + b, ledger, now);
  }

  /** A crawler that raised puts nothing forward and leaves the gold slot
      as it was. */
  lemma RaisedPutsNothingForward(tag: Tagger, a: seq<Run>, b: seq<Run>, failed: Run)
    requires failed.outcome.Raised?
    ensures Candidates(tag, a + [failed] + b, false) == Candidates(tag, a + b, false)
  {
    var g := FirstGold(a).Some?;
    var cb := Candidates(tag, b, g);
    assert Candidates(tag, [failed] + b, g) == cb by {
      CandidatesConcat(tag, [failed], b, g);
      assert [failed][1..] == [];
      assert Candidates(tag, [failed], g) == [];
      assert FirstGold([failed]).None?;
      assert [] + cb == cb;
    }
    ConcatAssoc(a, [failed], b);
    CandidatesConcat(tag, a, [failed] + b, false);
    CandidatesConcat(tag, a, b, false);
  }

  /** Before any gold crawler returned something, the gold slot being taken
      or not makes no difference. */
  lemma {:induction false} CandidatesUntaken(tag: Tagger, runs: seq<Run>)
    requires forall j :: 0 <= j < |runs| ==> !TakesGold(runs[j])
    ensures Candidates(tag, runs, false) == Candidates(tag, runs, true)
    decreases |runs|
  {
    if |runs| > 0 {
      assert !TakesGold(runs[0]);
      CandidatesUntaken(tag, runs[1..]);
    }
  }

  /** Once the gold slot is taken, the gold crawlers contribute nothing:
      what is put forward is what the other crawlers put forward. */
  lemma {:induction false} GoldSkippedOnceTaken(tag: Tagger, runs: seq<Run>)
    ensures Candidates(tag, runs, true) == Candidates(tag, Filter(runs, NotGold), true)
    decreases |runs|
  {
    if |runs| > 0 {
      var rest := runs[1..];
      GoldSkippedOnceTaken(tag, rest);
      var f := Filter(runs, NotGold);
      assert Candidates(tag, runs, true) == Offer(tag, runs[0], true) + Candidates(tag, rest, true);
      if NotGold(runs[0]) {
        assert f == [runs[0]] + Filter(rest, NotGold);
        assert f[0] == runs[0] && f[1..] == Filter(rest, NotGold);
        assert Candidates(tag, f, true) == Offer(tag, runs[0], true) + Candidates(tag, Filter(rest, NotGold), true);
      } else {
        assert f == Filter(rest, NotGold);
        assert Offer(tag, runs[0], true) == [];
      }
    }
  }

  /** The two gold sources collapse to one record: the first record of the
      first gold crawler with a non-empty result, put forward at that
      crawler's place; every other gold output is skipped, whether or not
      the chosen snapshot is then emitted. */
  lemma GoldCollapse(tag: Tagger, runs: seq<Run>)
    ensures FirstGold(runs).None? ==> Candidates(tag, runs, false) == Candidates(tag, runs, true)
    ensures FirstGold(runs).Some? ==>
      var i := FirstGold(runs).value;
      Candidates(tag, runs, false)
        == Candidates(tag, runs[..i], true) + [GoldSnapshot(tag, runs).value] + Candidates(tag, runs[i + 1..], true)
  {
    match FirstGold(runs)
    case None =>
      CandidatesUntaken(tag, runs);
    case Some(i) =>
      GoldCollapseAt(tag, runs, i);
  }

  /** The gold slot taken at position `i`: what comes before is put forward
      as with the slot taken, then the snapshot, then the rest. */
  lemma GoldCollapseAt(tag: Tagger, runs: seq<Run>, i: nat)
    requires FirstGold(runs) == Some(i)
    ensures Candidates(tag, runs, false)
        == Candidates(tag, runs[..i], true) + [GoldSnapshot(tag, runs).value] + Candidates(tag, runs[i + 1..], true)
  {
    var pre, run, post := runs[..i], runs[i], runs[i + 1..];
    assert Candidates(tag, runs, false) == Candidates(tag, pre, false) + Candidates(tag, [run] + post, false) by {
      assert runs == pre + ([run] + post);
      CandidatesConcat(tag, pre, [run] + post, false);
      assert FirstGold(pre).None?;
    }
    assert Candidates(tag, pre, false) == Candidates(tag, pre, true) by {
      assert forall j :: 0 <= j < |pre| ==> !TakesGold(pre[j]);
      CandidatesUntaken(tag, pre);
    }
    assert Candidates(tag, [run] + post, false) == [GoldSnapshot(tag, runs).value] + Candidates(tag, post, true) by {
      CandidatesConcat(tag, [run], post, false);
      assert FirstGold([run]).Some?;
      assert Candidates(tag, [run], false) == [Retag(tag, Result(run.outcome)[0])];
    }
    ConcatAssoc(Candidates(tag, pre, true), [GoldSnapshot(tag, runs).value], Candidates(tag, post, true));
  }

  /** With the gold slot taken, everything put forward is well tagged. */
  lemma {:induction false} UntakenCandidatesWellTagged(tag: Tagger, runs: seq<Run>)
    ensures forall x :: x in Candidates(tag, runs, true) ==> WellTagged(tag, x)
    decreases |runs|
  {
    if |runs| > 0 {
      UntakenCandidatesWellTagged(tag, runs[1..]);
      var o := Offer(tag, runs[0], true);
      assert forall x :: x in o ==> WellTagged(tag, x);
      assert Candidates(tag, runs, true) == o + Candidates(tag, runs[1..], true);
    }
  }

  /** Everything put forward carries the tags the classifier gives it,
      except the gold snapshot. */
  lemma CandidatesAreTagged(tag: Tagger, runs: seq<Run>)
    ensures forall x :: x in Candidates(tag, runs, false) ==>
      WellTagged(tag, x) || GoldSnapshot(tag, runs) == Some(x)
  {
    GoldCollapse(tag, runs);
    match FirstGold(runs)
    case None =>
      UntakenCandidatesWellTagged(tag, runs);
    case Some(i) =>
      UntakenCandidatesWellTagged(tag, runs[..i]);
      UntakenCandidatesWellTagged(tag, runs[i + 1..]);
  }

  /** Every returned record carries the non-empty tags the classifier gives
      its title and content, except the gold snapshot, which is returned
      even without tags. */
  lemma ReturnedRecordsAreTagged(tag: Tagger, runs: seq<Run>, ledger: Ledger, now: int)
    ensures forall x :: x in RunAll(tag, runs, ledger, now).news ==>
      WellTagged(tag, x) || GoldSnapshot(tag, runs) == Some(x)
  {
    RunAllIsLedgerDedup(tag, runs, ledger, now);
    CandidatesAreTagged(tag, runs);
  }

  /** Only records whose ledger key was not in the loaded ledger are
      returned, no two share a ledger key, and with a non-negative
      retention every returned key is in the flushed ledger, marked at
      `now`; the flushed ledger holds nothing else but the loaded entries
      that were still live. */
  lemma ReturnedKeysAreRecorded(tag: Tagger, runs: seq<Run>, ledger: Ledger, now: int)
    requires ledger.retentionDays >= 0
    ensures var r := RunAll(tag, runs, ledger, now);
      && DistinctBy(r.news, LedgerKey)
      && (forall i :: 0 <= i < |r.news| ==> !Seen(ledger, LedgerKey(r.news[i])))
      && (forall i :: 0 <= i < |r.news| ==>
            LedgerKey(r.news[i]) in r.flushed.ledger.data
            && r.flushed.ledger.data[LedgerKey(r.news[i])] == now)
      && (forall k :: Seen(r.flushed.ledger, k) <==>
            (Seen(ledger, k) && Live(ledger, k, now)) || k in Keys(r.news, LedgerKey))
  {
    RunAllIsLedgerDedup(tag, runs, ledger, now);
    var e := Emitted(tag, runs, ledger);
    var m := MarkEach(ledger, e, now);
    assert m.Ttl() >= 0;
    forall i | 0 <= i < |e| ensures !Seen(ledger, LedgerKey(e[i])) && Live(m, LedgerKey(e[i]), now) {
      assert LedgerKey(e[i]) in Keys(e, LedgerKey);
    }
  }

  /** Running the loop again on the same crawler outputs against the ledger
      the first run flushed returns nothing, provided no loaded entry had
      expired by the first run: everything put forward was either known
      before or marked by the first run. */
  lemma SecondRunReturnsNothing(tag: Tagger, runs: seq<Run>, ledger: Ledger, now: int, later: int)
    requires ledger.retentionDays >= 0
    requires forall k :: k in ledger.data ==> Live(ledger, k, now)
    ensures RunAll(tag, runs, RunAll(tag, runs, ledger, now).flushed.ledger, later).news == []
  {
    var first := RunAll(tag, runs, ledger, now);
    ReturnedKeysAreRecorded(tag, runs, ledger, now);
    RunAllIsLedgerDedup(tag, runs, ledger, now);
    RunAllIsLedgerDedup(tag, runs, first.flushed.ledger, later);
    var l2 := first.flushed.ledger;
    var m := MarkEach(ledger, first.news, now);
    forall k | k in ledger.data ensures k in l2.data {
      if k !in Keys(first.news, LedgerKey) {
        assert Live(ledger, k, now);
      }
    }
    assert Keys(Candidates(tag, runs, false), LedgerKey) <= l2.data.Keys;
    DedupByAllKnown(Candidates(tag, runs, false), LedgerKey, l2.data.Keys);
  }

  /** One run of each crawler of the source's list, in list order, with the
      given outcomes. */
  function RosterRuns(outcomes: seq<Outcome>): (r: seq<Run>)
    requires |outcomes| == |Roster|
    ensures |r| == |Roster|
    ensures forall i :: 0 <= i < |r| ==> r[i] == Run(Roster[i], outcomes[i])
  {
    seq(|Roster|, i requires 0 <= i < |Roster| => Run(Roster[i], outcomes[i]))
  }

  /** With the source's crawler list, the snapshot comes from
      `GoldPriceCrawler` when it returned something, otherwise from
      `SinaGoldPriceCrawler`. */
  lemma RosterGoldOrder(outcomes: seq<Outcome>)
    requires |outcomes| == |Roster|
    ensures FirstGold(RosterRuns(outcomes)) ==
      if |Result(outcomes[3])| > 0 then Some(3)
      else if |Result(outcomes[4])| > 0 then Some(4)
      else None
  {
    var runs := RosterRuns(outcomes);
    forall j | 0 <= j < |runs| && j != 3 && j != 4 ensures !TakesGold(runs[j]) {
      assert runs[j].crawler == Roster[j];
    }
  }
}
