# AI-tuisong ingestion core in Dafny

A model of the ingestion, de-duplication, classification and queueing
engine of the AI news-push tool, with the properties its code promises
proved about the model. What is modelled:

- the keyword classifier `match_keywords` and its four vocabularies (`Keywords`, keywords.dfy);
- the seen-ledger `StateStore`: load, seen, mark, purge and flush (`SeenLedger`, ledger.dfy);
- the pending queue `PendingStore` and its stable key: add_many, pop_many, pop_all and load (`PendingQueue`, pending.dfy);
- `run_all_crawlers` and `_deduplicate`, the crawler loop with its gold-source collapse (`Orchestrator`, orchestrator.dfy);
- the bucketing and per-run selection of `main.py` (`Job`, job.dfy);
- the prompt and the fallback of the summarizer, and the batch (`Summarizer`, summarizer.dfy);
- four collectors:
  - the Sina gold-quote line parser and its crawl (`SinaGold`, sina_gold.dfy);
  - the multi-authority policy collector (`PolicySources`, policy_sources.dfy);
  - the AI-portal collector (`AiNews`, ai_news.dfy);
  - the government-portal collector (`PolicyWatch`, policy_watch.dfy).
- Supporting modules:
  - the shape the three anchor collectors share (`Collect`, collect.dfy);
  - Python-like string helpers such as `in`, `strip`, `split`, `join` and `find` (`Strs`, strs.dfy);
  - generic sequence helpers: first-occurrence de-duplication, filters and subsequences (`Seqs`, seqs.dfy);
  - the record types (`NewsItem`, item.dfy) and `Option` (`Optional`, optional.dfy).

Modelling conventions:

- **Records.** A news dict is the record `Item(title, content, url, tags)`. A missing key reads as `""` (or as `[]` for tags), because every reader in the core defaults a missing key that way.
- **Time.** Time is whole seconds, passed in as `now`. One orchestration run uses one clock reading.
- **Outside world as inputs.**
  - A crawler's call arrives as its outcome: raised or returned.
  - A fetched page arrives as its anchors, or as an error.
  - The chat-completion call arrives as its reply.
  - `urllib.parse.urljoin` and `urlparse` are function parameters.
- **Generic parameters.** The orchestrator's classifier and the job's bucketing function are parameters. The lemmas are proved for any such function, and the source's own `match_keywords` and bucketing are what `Keywords.MatchKeywords` and `Job.BucketOf` define.

What the code does, which the model follows:

- **Crawlers.** The crawlers run one after another; nothing is concurrent.
- **Orchestrator tags.** Every non-gold record is re-classified, and it is dropped when the classifier gives it no tag.
- **Gold snapshot.** The gold snapshot is returned even when the classifier gives it no tag. In that case it keeps whatever tags it arrived with.
- **Ledger key.** The ledger key is the raw url, or the title when the url is empty. The final pass de-duplicates by the `(url, title)` pair. `Orchestrator.RunAllIsLedgerDedup` shows that this pass never removes anything.
- **Ledger purging.** Loading the ledger does not purge, and neither does `seen`. An expired entry therefore still suppresses a record until the flush at the end of the run.
- **Job.** The job in `main.py` is a single time-windowed selection. The "core one" bucket is sent only at 11:50 and 18:00; at most five policy records and at most eight AI records are sent. The job does not use the pending queue, and there is no second, analysis phase.
- **Summarizer.** The summarizer is called even for a record with neither title nor content. The fallback then yields only the tag hint.

## Model

| member | source | states |
|---|---|---|
| Keywords.HitsMember | news_crawler/config.py:114-128 | a term is reported for a vocabulary exactly when it belongs to that vocabulary and occurs in the text |
| Keywords.Hits | news_crawler/config.py:114-128 | every hit a vocabulary reports is one of its terms and occurs in the text |
| Keywords.RawTags | news_crawler/config.py:112-132 | before de-duplication, every tag is a vocabulary term that occurs in the text, or "AI行业", or "政策类" |
| Keywords.Classify | news_crawler/config.py:112-140 | over any vocabulary, the classifier never returns the same tag twice, and every tag it returns occurs in the text or is one of the two synthetic tags |
| Keywords.ClassifySpec | news_crawler/config.py:106-140 | over any vocabulary with non-empty terms none of which is spelled like a synthetic tag: a term is a tag iff it occurs in the text; "AI行业" is a tag iff some AI term occurs; "政策类" is a tag iff some policy term occurs; nothing else is ever a tag |
| Keywords.ConfigWellFormed | news_crawler/config.py:19-103 | the source's four vocabularies meet that condition: no empty term, none spelled "AI行业" or "政策类" |
| Keywords.TermTaggedIffOccurs | news_crawler/config.py:106-140 | with the source's vocabularies, a term is returned as a tag exactly when it occurs in the text |
| Keywords.AiTagIffAiTerm | news_crawler/config.py:124-130 | "AI行业" is returned exactly when some AI term occurs, in both directions |
| Keywords.PolicyTagIffPolicyTerm | news_crawler/config.py:113-132 | "政策类" is returned exactly when some policy term occurs, in both directions |
| Keywords.TagsAreKnown | news_crawler/config.py:106-140 | every returned tag is a vocabulary term or one of the two synthetic tags |
| Keywords.EmptyTextHasNoTags | news_crawler/config.py:106-140 | the empty text gets no tags |
| Keywords.TagOrderIsFirstOccurrence | news_crawler/config.py:112-140 | the tags are the scan's hits in scan order (sectors, policy, gold, AI, then the two synthetic tags), each kept at its first occurrence |
| Keywords.SingleSectorTerm | news_crawler/config.py:106-140 | a text in which exactly one vocabulary term occurs, a sector term, is tagged with that term alone and with no synthetic tag |
| Keywords.MatchesAny | news_crawler/policy_sources.py:65-72 | the early-return keyword scan answers true exactly when some term occurs in the text |
| SeenLedger.Load | state_store.py:22-29 | construction gives the stored map, or the empty map when the file is missing or unreadable; it does not purge |
| SeenLedger.SeenAfterLoad | state_store.py:22-47 | right after construction, a key is seen iff the file held a map with that key, however old its time |
| SeenLedger.Mark | state_store.py:49-50 | after `mark`, the key is seen with time `now`; every other key keeps its membership and its time |
| SeenLedger.Purge | state_store.py:39-44 | a key survives a purge iff it was present and at most the retention window old; survivors keep their times |
| SeenLedger.Flush | state_store.py:52-54 | flush writes exactly the purged map it leaves in memory |
| SeenLedger.FlushLoadRoundTrip | state_store.py:22-54 | what flush writes, a later construction reads back as the same ledger |
| SeenLedger.RetentionBoundary | state_store.py:39-50 | a key marked at t is still seen after a purge at t + window and gone after a purge at t + window + 1 |
| SeenLedger.PurgeIdempotent | state_store.py:39-44 | purging twice at one time is purging once |
| SeenLedger.PurgeMonotone | state_store.py:39-44 | a later purge keeps no key an earlier one dropped |
| SeenLedger.MarkIdempotent | state_store.py:49-50 | marking a key twice at one time is marking it once |
| SeenLedger.MarkSurvivesPurge | state_store.py:39-50 | with a non-negative retention, a key just marked survives a purge at the same time |
| PendingQueue.StableKeyIdentifies | pending_store.py:9-19 | two records get equal keys iff they agree on their stripped url when it is non-blank, else both have blank urls and agree on their non-blank stripped titles, else all of these are blank and their stripped contents agree on the first 50 characters |
| PendingQueue.KeyOf | pending_store.py:9-19 | the key is never empty, and its form follows the fields: the url form when the url is non-blank, else the title form when the title is non-blank, else the raw form |
| PendingQueue.StableKey | pending_store.py:9-19 | a record's key has the url form iff its stripped url is non-blank, the title form iff only its stripped title is non-blank, and the raw form otherwise |
| PendingQueue.Purge | pending_store.py:50-63 | the purge keeps, in order, a subsequence holding every live entry and only live entries, as many as there are live entries; an entry without a time counts as just queued |
| PendingQueue.PurgeIdempotent | pending_store.py:50-63 | purging twice at one time is purging once |
| PendingQueue.AddMany | pending_store.py:65-84 | add_many leaves the purged queue as a prefix and then the first record of each new key among the incoming records, in order, stamped `now`; the count is the number appended; the queue is written only if the count is positive |
| PendingQueue.AddManyKeepsKeysDistinct | pending_store.py:65-84 | if no two queued entries share a key before add_many, none do after |
| PendingQueue.AddManyTwice | pending_store.py:65-84 | with a non-negative retention, adding the same batch again at the same time adds nothing and leaves the queue unchanged |
| PendingQueue.PopMany | pending_store.py:94-102 | pop_many splits the purged queue: the popped prefix followed by what stays is the purged queue; a non-positive limit pops nothing and writes nothing; otherwise it pops min(limit, size) entries and writes the rest |
| PendingQueue.PopAll | pending_store.py:86-92 | pop_all returns exactly the purged queue, in order, leaves the queue empty and writes the empty list |
| PendingQueue.PopAllIsPopManyEverything | pending_store.py:86-102 | pop_all pops what a pop_many whose limit covers the queue pops, and leaves the same empty queue |
| PendingQueue.PopManyDrains | pending_store.py:94-102 | pop_many(n) followed at the same time by a pop_many covering what is left returns the whole purged queue, in order, with nothing lost or repeated |
| PendingQueue.Load | pending_store.py:31-40 | construction gives the stored list, or the empty queue when the file is missing, unreadable or not a list |
| PendingQueue.AddManyLoadRoundTrip | pending_store.py:31-84 | whatever add_many writes, a later construction reads back as the queue it left in memory |
| Orchestrator.Retag | news_crawler/__init__.py:78-81 | tagging sets a record's tags to the classifier's tags only when there are some; otherwise the record is unchanged; title, content and url never change |
| Orchestrator.Deduplicate | news_crawler/__init__.py:19-28 | `_deduplicate` returns a subsequence with no repeated (url, title) pair that covers every pair of the input, namely the first record of each pair |
| Orchestrator.DeduplicateIdempotent | news_crawler/__init__.py:19-28 | de-duplicating twice is de-duplicating once |
| Orchestrator.KeysCompared | news_crawler/__init__.py:22-82 | the final pass tells records apart by url and title together; the ledger key merges records with one non-empty url, compares titles when both urls are empty, and also lets a url-less record whose title spells another's url collide with it |
| Orchestrator.Admit | news_crawler/__init__.py:71-74 | after a record is considered its ledger key is seen; a record already seen leaves the run unchanged; otherwise it is appended to the output; nothing already output or recorded is lost |
| Orchestrator.Scan | news_crawler/__init__.py:77-85 | scanning a crawler's records only appends to the output and the ledger, and everything it appends carries the classifier's non-empty tags |
| Orchestrator.Step | news_crawler/__init__.py:53-85 | one crawler only appends to the output and the ledger, and the gold slot is taken after it iff it was taken before or this crawler takes it |
| Orchestrator.Loop | news_crawler/__init__.py:53-85 | the crawler loop only appends to the output and the ledger, and the gold slot is taken at the end iff it was taken at the start or some crawler took it |
| Orchestrator.RunAll | news_crawler/__init__.py:31-89 | the returned list has no repeated (url, title) pair, and flush writes the ledger it leaves |
| Orchestrator.FirstGold | news_crawler/__init__.py:61-66 | the gold slot goes to the first gold crawler with a non-empty result, and to none when no gold crawler returned anything |
| Orchestrator.GoldSnapshot | news_crawler/__init__.py:61-70 | there is a gold snapshot iff some gold crawler returned a non-empty result |
| Orchestrator.MarkEach | news_crawler/__init__.py:72-85 | marking a list of records leaves seen exactly the keys seen before plus the records' keys; the new keys carry `now`, and the other keys keep their times |
| Orchestrator.Emitted | news_crawler/__init__.py:53-85 | the reference reading: candidates with no ledger key repeated, none already in the loaded ledger, and every candidate's key either loaded or emitted |
| Orchestrator.RunAllIsLedgerDedup | news_crawler/__init__.py:50-89 | the loop returns exactly the reference reading: each crawler's tagged records, the gold slot collapsed, then those whose ledger key is new, first occurrence first; the final (url, title) pass removes nothing; the flushed ledger is the loaded one with those keys marked, then purged |
| Orchestrator.RaisedContributesNothing | news_crawler/__init__.py:53-58 | a crawler that raises leaves the run exactly as if it were not in the list |
| Orchestrator.GoldSkippedOnceTaken | news_crawler/__init__.py:61-64 | once the gold slot is taken, what is put forward is what the non-gold crawlers alone put forward |
| Orchestrator.GoldCollapse | news_crawler/__init__.py:61-75 | the gold crawlers contribute at most one record: the snapshot, at the first successful gold crawler's place; all other gold output is skipped |
| Orchestrator.CandidatesAreTagged | news_crawler/__init__.py:61-85 | everything put forward carries the non-empty tags the classifier gives its title and content, except the gold snapshot |
| Orchestrator.ReturnedRecordsAreTagged | news_crawler/__init__.py:31-89 | every returned record carries non-empty classifier tags, except the gold snapshot, which is returned even without tags |
| Orchestrator.ReturnedKeysAreRecorded | news_crawler/__init__.py:50-89 | returned records have distinct ledger keys, none in the loaded ledger, each recorded at `now` in the flushed ledger; that ledger holds exactly those keys and the loaded entries still live |
| Orchestrator.SecondRunReturnsNothing | news_crawler/__init__.py:31-89 | a second run on the same crawler outputs, against the ledger the first run flushed, returns nothing, provided nothing loaded had expired |
| Orchestrator.RosterGoldOrder | news_crawler/__init__.py:36-49 | with the source's crawler list, the snapshot comes from `GoldPriceCrawler` if it returned something, else from `SinaGoldPriceCrawler` |
| Job.BucketOf | main.py:35-42 | a record goes to the AI bucket iff it has "AI行业"; to the policy bucket iff it has "政策类" but not "AI行业"; otherwise to "core one" |
| Job.Partition | main.py:32-42 | the loop's three lists are the records of each bucket, in arrival order |
| Job.PartitionCovers | main.py:32-42 | every record lands in exactly one bucket: the three lists together are the input as a multiset |
| Job.Select | main.py:44-55 | the selection holds only input records, at most the "core one" count (at the two allowed times, else zero) plus five plus eight |
| Job.SelectByBucket | main.py:44-55 | read back by bucket, the selection is the whole "core one" bucket at 11:50 and 18:00 and none of it otherwise, the first five policy records and the first eight AI records, each in arrival order |
| Job.SelectOrder | main.py:51-55 | the selection lists the "core one" records first, then the policy records, then the AI records |
| Job.OffHoursSelectsOnlyTagged | main.py:44-55 | outside the two allowed times at most thirteen records are selected, each tagged "AI行业" or "政策类" |
| Summarizer.Bracketed | summarizer/openai_summarizer.py:45-46 | the tag line (and, framed differently, the fallback's tag hint) is empty exactly when the record has no tags, and otherwise opens and closes with its framing |
| Summarizer.TagLine | summarizer/openai_summarizer.py:45-46 | the tag line is empty iff the record has no tags; otherwise it opens with "关注标签：", ends with a newline and names every tag |
| Summarizer.TagHint | summarizer/openai_summarizer.py:78-79 | the tag hint is empty iff the record has no tags; otherwise it opens with " [标签: ", ends with "]" and names every tag |
| Summarizer.Render | summarizer/openai_summarizer.py:42-58 | for any opening and closing text, the prompt is exactly: the opening text, "标题：" and the title, "\n正文：" and the body, a blank line, the tag line, then the closing text (pinned by its start, its end and its length); so it holds a tag line iff the record has tags |
| Summarizer.BuildPrompt | summarizer/openai_summarizer.py:42-58 | the prompt is exactly the analyst instruction, the title line, the body line and a blank line, then the tag line, then the four-point requirements (pinned by start, end and length) |
| Summarizer.PromptNamesEveryTag | summarizer/openai_summarizer.py:42-58 | every tag of the record is named in its prompt |
| Summarizer.PromptIgnoresUrl | summarizer/openai_summarizer.py:42-58 | the url has no influence on the prompt |
| Summarizer.ReplyText | summarizer/openai_summarizer.py:61-75 | a raised call yields text opening with "摘要失败"; a reply without choices yields the empty text; an answer yields its content stripped, with null read as empty |
| Summarizer.Fallback | summarizer/openai_summarizer.py:77-82 | the fallback opens with the first 500 characters of the body, or of the title when the body is empty, and ends with the tag hint; its length is the two added; it is empty iff the record has no body, title or tags |
| Summarizer.Summarize | summarizer/openai_summarizer.py:60-88 | the result keeps the record's title and url; the summary is the fallback when the reply text is empty or opens with "摘要失败", and the reply text otherwise |
| Summarizer.RaisedFallsBack | summarizer/openai_summarizer.py:74-82 | a call that raised never shows its error: the fallback is returned |
| Summarizer.AnswerIsKept | summarizer/openai_summarizer.py:70-82 | an answer that is non-empty after stripping and does not open with "摘要失败" is returned stripped |
| Summarizer.EmptySummary | summarizer/openai_summarizer.py:60-88 | the summary is empty iff the reply was unusable and the record has no body, title or tags |
| Summarizer.SummarizeBatch | summarizer/openai_summarizer.py:91-112 | one summary per record, and the summary at each position is the one the record at that position gets with its own reply |
| SinaGold.Quote | news_crawler/gold_price_sina.py:33-44 | a quote record links to the quote page and carries no tags; its title is exactly "黄金 | ", the name, " 现价:" and the last price, " 开盘:" and the open, " 高:" and the high, " 低:" and the low; its body is exactly "昨收:" and the previous close, " 时间:", the next-to-last field, a space and the last field (each pinned by start, end and length) |
| SinaGold.Payload | news_crawler/gold_price_sina.py:28-29 | the payload is the text after the first `=` with only whitespace, semicolons and double quotes cut from its two ends, and when non-empty it neither opens nor closes with a double quote |
| SinaGold.PayloadIsThreeStrips | news_crawler/gold_price_sina.py:28-29 | the payload is the result of three complete strips in order: whitespace from both ends, then semicolons, then double quotes, none of the stripped characters left at either end of its stage |
| SinaGold.ParseLine | news_crawler/gold_price_sina.py:22-46 | every parsed record is the quote record of some list of at least six fields, linking to the quote page |
| SinaGold.ParseLineAccepts | news_crawler/gold_price_sina.py:25-32 | a line with an `=` parses iff the payload after its first `=` holds at least five commas |
| SinaGold.ParseLineNeedsEquals | news_crawler/gold_price_sina.py:25-27 | a line without `=` never parses |
| SinaGold.ParseQuoteLine | news_crawler/gold_price_sina.py:22-46 | round trip: the line `name="f0,…,fn";` built from at least six comma-free fields parses back to the record of exactly those fields |
| SinaGold.ParseAll | news_crawler/gold_price_sina.py:53-56 | the loop yields at most one record per line |
| SinaGold.ParsedRecordsAreQuotes | news_crawler/gold_price_sina.py:48-56 | every record of the loop is the parse of one of the lines and links to the quote page |
| SinaGold.ParseAllCount | news_crawler/gold_price_sina.py:53-56 | the loop yields exactly one record per line that parses |
| SinaGold.ParseAllConcat | news_crawler/gold_price_sina.py:53-56 | lines are parsed independently: two batches yield the records of each, in order |
| SinaGold.Crawl | news_crawler/gold_price_sina.py:48-63 | a failed request yields one placeholder titled "黄金价格抓取失败(新浪)" with an empty url and the error in its body; otherwise at most one record per line |
| Collect.KeepFirst | news_crawler/policy_sources.py:76-92 | the loop that stops at the cap returns exactly the first `cap` records the anchors yield |
| Collect.KeepAll | news_crawler/policy_watch.py:27-36 | the loop without an early stop returns every record the anchors yield, in order |
| Collect.Scan | news_crawler/policy_sources.py:76-92 | a scan that ends normally returns exactly the first `cap` records the elements yield, and it does end normally when every element that raises comes after `cap` records are kept |
| Collect.ScanAborts | news_crawler/policy_sources.py:76-92 | the first element that raises before `cap` records are kept aborts the scan with that element's error |
| Collect.KeepFirstUnlessFails | news_crawler/policy_sources.py:76-92 | the loop that stops at the cap, and is aborted by the first element that raises before it, ends as the scan does; when it is not aborted it returns the first `cap` records |
| Collect.Placeholder | news_crawler/policy_sources.py:101-106 | the failed page's record carries the collector's failure title and the page as url, with no tags |
| Collect.PageOrPlaceholder | news_crawler/policy_sources.py:96-106 | a fetched page contributes what its anchors yield; a failed page contributes its placeholder alone |
| Collect.CrawlPages | news_crawler/policy_sources.py:94-107 | every page that failed contributes its placeholder, with that page's source and error, to the crawl |
| Collect.CrawlOnePage | news_crawler/policy_sources.py:94-107 | the crawl of a single page is exactly that page's contribution: its extracted records when fetched, its placeholder alone when it failed |
| Collect.CrawlBound | news_crawler/policy_sources.py:94-107 | when no page yields more than `cap` records, the crawl yields at most `cap` per source |
| Collect.CrawlConcat | news_crawler/policy_sources.py:94-107 | pages are independent: the crawl of two runs of pages is the crawl of each, concatenated |
| Collect.AllPagesFailed | news_crawler/policy_sources.py:94-107 | when every page fails, the crawl is one placeholder per page, in page order |
| PolicySources.SameDomain | news_crawler/policy_sources.py:54-60 | same domain iff both network locations parse, the link's is non-empty, and one ends with the other |
| PolicySources.SameDomainIsSuffixOnly | news_crawler/policy_sources.py:54-60 | the domain test is a plain suffix test: the network location "evilgov.cn" counts as the site "gov.cn", and a page with an empty network location accepts every link that has one |
| PolicySources.TextMatches | news_crawler/policy_sources.py:65-72 | the text filter accepts exactly the non-empty texts in which a sector or policy term occurs |
| PolicySources.Candidate | news_crawler/policy_sources.py:78-89 | an anchor yields a record iff its text and link are non-empty, `urljoin` resolves the link without raising, the joined link is http(s), on the page's site, and the text matches; the record's body repeats the title |
| PolicySources.Raises | news_crawler/policy_sources.py:78-83 | an anchor raises iff its text and link are non-empty and `urljoin` raises on the link; such an anchor yields no record, and the error is `urljoin`'s |
| PolicySources.Extract | news_crawler/policy_sources.py:74-92 | `_extract` ends as the page's scan ends; when no link raised before the cap, it returns the first sixty records the page's anchors yield |
| PolicySources.PageOutcome | news_crawler/policy_sources.py:74-92 | a page whose scan is not aborted yields its first sixty records; a page is never aborted when every anchor that raises comes after sixty records are kept |
| PolicySources.FirstRaisingLinkAbortsPage | news_crawler/policy_sources.py:77-91 | the first anchor whose link `urljoin` cannot resolve, reached before sixty records are kept, aborts the page's scan with its error |
| PolicySources.PageRecords | news_crawler/policy_sources.py:74-92 | a page yields at most sixty records |
| PolicySources.PageRecordsAreMatches | news_crawler/policy_sources.py:74-92 | every kept record comes from an anchor of the page: its non-empty matching text as title and body, its joined link, http(s) and on the page's site |
| PolicySources.Settled | news_crawler/policy_sources.py:96-106 | a page that fails to load stays failed; a fetched page whose scan an unresolvable link aborts fails with that link's error; any other page is kept as fetched |
| PolicySources.Crawl | news_crawler/policy_sources.py:94-107 | every authority page that fails to load, or whose scan an unresolvable link aborts, contributes the placeholder with its address and that error |
| PolicySources.CrawlSettled | news_crawler/policy_sources.py:94-107 | for any list of pages, every page that fails once settled contributes its placeholder with its address and error |
| PolicySources.UnresolvableLinkFailsPage | news_crawler/policy_sources.py:82-106 | a fetched page whose first unresolvable link comes before sixty records are kept contributes to the crawl the placeholder carrying that link's error |
| PolicySources.CrawlBounded | news_crawler/policy_sources.py:94-107 | a crawl yields at most sixty records per authority page |
| PolicySources.FailureTitleIsPolicy | news_crawler/policy_sources.py:102-106 | a failed page's placeholder, titled "政策抓取失败", is classified under "政策类" |
| PolicySources.MatchedTextIsTagged | news_crawler/policy_sources.py:65-72 | a link text the filter accepts is tagged by the classifier with some sector or policy term, so the record is never dropped as untagged |
| AiNews.Resolve | news_crawler/ai_news.py:37-42 | a rooted link is appended to the page address with its one trailing `/` dropped; any other link is kept as written |
| AiNews.ResolveSingleSlash | news_crawler/ai_news.py:37-40 | a rooted link on an address ending in `/` is joined with exactly one `/` between address and path |
| AiNews.Candidate | news_crawler/ai_news.py:32-49 | an anchor yields a record iff its text and link are non-empty, the resolved link is http(s), and one of the eleven filter words occurs in the text; the body repeats the title |
| AiNews.PageRecords | news_crawler/ai_news.py:29-50 | a page yields at most forty records |
| AiNews.Extract | news_crawler/ai_news.py:29-50 | `_extract` returns the first forty records the page's anchors yield |
| AiNews.PageRecordsAreAiLinks | news_crawler/ai_news.py:29-50 | every kept record comes from an anchor of the page: its non-empty text holding a filter word, as title and body, and its resolved http(s) link |
| AiNews.Crawl | news_crawler/ai_news.py:52-66 | every portal page that fails contributes the placeholder titled "AI新闻抓取失败" with its address and error |
| AiNews.CrawlBounded | news_crawler/ai_news.py:52-66 | a crawl yields at most forty records per portal page |
| AiNews.AiWordIsAiIndustry | news_crawler/ai_news.py:46-47 | a kept title whose filter word is also an AI term of the classifier is filed under "AI行业" |
| PolicyWatch.Absolute | news_crawler/policy_watch.py:33-34 | a rooted link is put on https://www.gov.cn; any other link is kept as written |
| PolicyWatch.Candidate | news_crawler/policy_watch.py:29-36 | an anchor yields a record iff its text and link are non-empty, the resolved link is http(s), and the text has at least six characters; the body repeats the title |
| PolicyWatch.PageRecords | news_crawler/policy_watch.py:25-37 | a page yields at most eighty records |
| PolicyWatch.Extract | news_crawler/policy_watch.py:25-37 | `_extract` scans every anchor, then keeps the first eighty records |
| PolicyWatch.PageRecordsAreLongLinks | news_crawler/policy_watch.py:25-37 | every kept record comes from an anchor: a title of at least six characters repeated as body, and its http(s) link, put on the portal's site when rooted |
| PolicyWatch.Crawl | news_crawler/policy_watch.py:39-52 | every list page that fails contributes the placeholder titled "政策抓取失败" with its address and error |
| PolicyWatch.CrawlBounded | news_crawler/policy_watch.py:39-52 | a crawl yields at most eighty records per list page |

## Left out

- **HTTP, decoding and HTML parsing.** Every `requests.get`, the response encoding and BeautifulSoup's anchor selection and text stripping are outside the model. A page arrives as its anchors or as an error; the quote service's answer arrives as its lines or as an error.
- **URL parsing.** `urllib.parse.urljoin` and `urlparse` are parameters of `PolicySources`, in the `Resolver` record, not implementations. A raising `urljoin` is part of the parameter: it aborts the page's scan, and the page then yields its placeholder.
- **Line splitting.** `str.splitlines` in the Sina gold collector is not modelled: the lines are the input.
- **File I/O.** JSON files, `os.makedirs` and `json.load`/`json.dump` are reduced to what they yield: a file that is missing, unreadable, not a list, or holds a value. A write is modelled as the value written, and a failing write is not modelled, since the code ignores it.
- **Clock.** `time.time()` is the integer parameter `now`. Sub-second time and floating-point timestamps are not modelled, and the whole orchestration run uses one reading. `add_many` reads the clock twice, once in its purge (pending_store.py:52) and once for the stamp (pending_store.py:70); `PendingQueue.AddMany` uses one `now` for both, so an entry that expires between the two readings is not modelled.
- **Wall clock.** `datetime.now(ZoneInfo("Asia/Shanghai"))` and its "%H:%M" formatting are the parameter `hhmm` of `Job.Select`.
- **Service and threads.** The OpenAI client, its configuration (`app_config`) and the thread pool of `summarize_batch` are outside the model. Each call's reply is an input, and results are placed by index, whatever order the threads finish in.
- **Batch fallback.** The per-item exception handler in `summarize_batch` is not modelled, because `Summarizer.Summarize` cannot raise.
- **Pushing.** Logging, `print`, the `schedule` loop, `argparse`, `time.sleep` between portal pages and the WeChat push are outside the model.
- **Other crawlers.** The crawlers other than the four modelled ones (eastmoney, chinanews, cctv, sector-open, AI official/research/platforms) are not part of this model. They enter the orchestrator only as their outcomes.
- **Non-dict items.** The `isinstance(it, dict)` guards of `add_many` are not modelled: every queued value is a record.
- **Queue timestamps.** A `_queued_at` is modelled as the whole number `float()` makes of it, which covers numeric strings and booleans, or as `None` when it is missing or `float()` raises; the code treats `None` as "now". A NaN time, which the code's comparison drops, is not modelled.
- SeenLedger.Load: the stored file is a map from keys to whole-number times. The code accepts any JSON value there, and two of its paths then raise: a stored value that is not a mapping makes `mark` and the purge raise (state_store.py:27), and a stored time `float()` cannot read makes the purge, and so `flush`, raise (state_store.py:42). Neither raising path is modelled.
- **Parse errors.** The exception handler in `_parse_line` is not modelled, because the modelled parse cannot fail.
- AiNews.AiWordIsAiIndustry: states the classifier's verdict only for the seven filter words that are also AI terms ("模型", "大模型", "LLM", "AI", "多模态", "推理", "对齐"). The other four filter words ("发布", "开源", "评测", "指令") give no AI tag, so a record kept for them alone may be dropped by the orchestrator.
- Orchestrator.RunAll: its own contract states only the de-duplication and the flush. What the loop returns is stated by `Orchestrator.RunAllIsLedgerDedup` against the reference reading.
- SinaGold.Crawl: for an answer that arrives, it bounds the records by the lines. Their contents are stated by `SinaGold.ParsedRecordsAreQuotes` and `SinaGold.ParseAllCount`.
- Job.Select: its own contract bounds the selection. The exact content per bucket is `Job.SelectByBucket`.
