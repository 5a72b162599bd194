/** The summarization step of `summarizer/openai_summarizer.py`: the
    prompt sent to the chat-completion service for one record, and what
    `summarize` returns for each way the service call can end, including
    the truncated-content fallback. The service call itself is an input:
    its outcome is a parameter. */
module Summarizer {
  import opened Optional
  import opened Seqs
  import opened Strs
  import opened NewsItem

  /** The instruction that opens every prompt. */
  const Preamble: string := "你是资深卖方行业分析师。请以清晰、简洁、准确的语言总结以下内容，并重点评估其对目标板块/基金的影响：\n"

  /** The closing list of what the summary must cover. */
  const Requirements: string := "总结要求：\n1) 新闻/政策/会议的关键结论；若为AI行业新闻，请说明：主体公司、模型名称/代号、来源/演进脉络、能力特长（推理/多模态/代码/工具调用等）、开放/商用情况；\n2) 对稀土、白酒、半导体/芯片、创新药、雅江水电工程/水电、光伏等板块的影响路径（需求/供给/成本/价格/估值/政策风险）；\n3) 对基金市场的影响：可能的申赎/持仓/资金流向变动；\n4) 交易建议（短/中/长期），风险点与触发条件。\n请分条列出，内容务必专业、实用。"

  /** The tags joined by ", " between `open` and `close`, or nothing when
      there are none: the prompt's tag line and the fallback's tag hint are
      two framings of it. */
  function Bracketed(tags: seq<string>, open: string, close: string): (r: string)
    requires |open| > 0
    ensures r == "" <==> |tags| == 0
    ensures |tags| > 0 ==> StartsWith(r, open) && EndsWith(r, close)
    ensures forall i :: 0 <= i < |tags| ==> Contains(r, tags[i])
  {
    if |tags| > 0 then
      EndsWithPrepend(open + Join(tags, ", "), close, close);
      assert (open + Join(tags, ", ") + close)[..|open|] == open;
      BracketedNamesTags(tags, open, close);
      open + Join(tags, ", ") + close
    else ""
  }

  /** Every tag occurs in its bracketed list. */
  lemma BracketedNamesTags(tags: seq<string>, open: string, close: string)
    ensures forall i :: 0 <= i < |tags| ==> Contains(open + Join(tags, ", ") + close, tags[i])
  {
    forall i | 0 <= i < |tags|
      ensures Contains(open + Join(tags, ", ") + close, tags[i])
    {
      JoinContainsPart(tags, ", ", i);
      ContainsPrepend(open, Join(tags, ", "), tags[i]);
      ContainsAppend(open + Join(tags, ", "), close, tags[i]);
    }
  }

  /** The tag line of the prompt: "关注标签：" and the tags joined by ", " on
      a line of their own, or nothing for an untagged record. */
  function TagLine(tags: seq<string>): (r: string)
    ensures r == "" <==> |tags| == 0
    ensures |tags| > 0 ==> StartsWith(r, "关注标签：") && EndsWith(r, "\n")
    ensures forall i :: 0 <= i < |tags| ==> Contains(r, tags[i])
  {
    Bracketed(tags, "关注标签：", "\n")
  }

  /** The prompt for one record: the preamble, the title line, the body
      line, the tag line and the requirements, in this order, for any
      opening and closing text. The url is not part of it. */
  function Render(preamble: string, requirements: string, it: Item): (p: string)
    ensures StartsWith(p, preamble) && EndsWith(p, requirements)
    ensures Contains(p, it.title) && Contains(p, it.content)
    ensures StartsWith(p, preamble + "标题：" + it.title + "\n正文：" + it.content + "\n\n")
    ensures EndsWith(p, TagLine(it.tags) + requirements)
    ensures |p| == |preamble + "标题：" + it.title + "\n正文：" + it.content + "\n\n"| + |TagLine(it.tags)| + |requirements|
  {
    PromptShape(preamble, it.title, it.content, TagLine(it.tags) + requirements);
    PromptEnds(preamble, it.title, it.content, TagLine(it.tags), requirements);
    preamble + ("标题：" + (it.title + ("\n正文：" + (it.content + ("\n\n" + (TagLine(it.tags) + requirements))))))
  }

  /** `_build_prompt`: the prompt with the source's fixed opening and
      closing text. */
  function BuildPrompt(it: Item): (p: string)
    ensures StartsWith(p, Preamble) && EndsWith(p, Requirements)
    ensures Contains(p, it.title) && Contains(p, it.content)
    ensures StartsWith(p, Preamble + "标题：" + it.title + "\n正文：" + it.content + "\n\n")
    ensures EndsWith(p, TagLine(it.tags) + Requirements)
    ensures |p| == |Preamble + "标题：" + it.title + "\n正文：" + it.content + "\n\n"| + |TagLine(it.tags)| + |Requirements|
  {
    Render(Preamble, Requirements, it)
  }

  /** Where the title and the body sit in a prompt. */
  lemma PromptShape(preamble: string, title: string, content: string, tail: string)
    ensures Contains(preamble + ("标题：" + (title + ("\n正文：" + (content + ("\n\n" + tail))))), title)
    ensures Contains(preamble + ("标题：" + (title + ("\n正文：" + (content + ("\n\n" + tail))))), content)
    ensures preamble + ("标题：" + (title + ("\n正文：" + (content + ("\n\n" + tail))))) ==
            preamble + "标题：" + title + "\n正文：" + (content + ("\n\n" + tail))
  {
    var body := content + ("\n\n" + tail);
    var titled := title + ("\n正文：" + body);
    StartsWithContains(body, content);
    ContainsPrepend("\n正文：", body, content);
    ContainsPrepend(title, "\n正文：" + body, content);
    ContainsPrepend("标题：", titled, content);
    ContainsPrepend(preamble, "标题：" + titled, content);
    StartsWithContains(titled, title);
    ContainsPrepend("标题：", titled, title);
    ContainsPrepend(preamble, "标题：" + titled, title);
  }

  /** How a prompt opens and closes. */
  lemma PromptEnds(preamble: string, title: string, content: string, line: string, requirements: string)
    ensures var p := preamble + ("标题：" + (title + ("\n正文：" + (content + ("\n\n" + (line + requirements))))));
            StartsWith(p, preamble) && StartsWith(p, preamble + "标题：" + title + "\n正文：" + content + "\n\n")
            && EndsWith(p, line + requirements) && EndsWith(p, requirements)
  {
    var head := preamble + "标题：" + title + "\n正文：" + content + "\n\n";
    var p := preamble + ("标题：" + (title + ("\n正文：" + (content + ("\n\n" + (line + requirements))))));
    assert p == head + (line + requirements);
    assert head[..|preamble|] == preamble;
    EndsWithPrepend(line, requirements, requirements);
    EndsWithPrepend(head, line + requirements, requirements);
    EndsWithPrepend(head, line + requirements, line + requirements);
  }

  /** Every tag of the record is named in its prompt. */
  lemma PromptNamesEveryTag(it: Item, i: nat)
    requires i < |it.tags|
    ensures Contains(BuildPrompt(it), it.tags[i])
  {
    var line := TagLine(it.tags);
    var j := Join(it.tags, ", ");
    JoinContainsPart(it.tags, ", ", i);
    ContainsPrepend("关注标签：", j, it.tags[i]);
    ContainsAppend("关注标签：" + j, "\n", it.tags[i]);
    ContainsAppend(line, Requirements, it.tags[i]);
    var tail := "\n\n" + (line + Requirements);
    ContainsPrepend("\n\n", line + Requirements, it.tags[i]);
    ContainsPrepend(it.content, tail, it.tags[i]);
    ContainsPrepend("\n正文：", it.content + tail, it.tags[i]);
    ContainsPrepend(it.title, "\n正文：" + (it.content + tail), it.tags[i]);
    ContainsPrepend("标题：", it.title + ("\n正文：" + (it.content + tail)), it.tags[i]);
    ContainsPrepend(Preamble, "标题：" + (it.title + ("\n正文：" + (it.content + tail))), it.tags[i]);
  }

  /** The url does not influence the prompt. */
  lemma PromptIgnoresUrl(it: Item, url: string)
    ensures BuildPrompt(it.(url := url)) == BuildPrompt(it)
  {
  }

  /** How the chat-completion call ended: it raised, it answered without
      choices, or its first choice carried a message content (`None` when
      the content was null). */
  datatype Reply = Raised(error: string) | NoChoices | Answered(content: Option<string>)

  /** The marker that opens the text of a failed call. */
  const FailureMarker: string := "摘要失败"

  /** The text `summarize` holds after the call: the error message, the
      empty string, or the stripped content. */
  function ReplyText(reply: Reply): (r: string)
    ensures reply.Raised? ==> StartsWith(r, FailureMarker)
    ensures reply.NoChoices? ==> r == ""
    ensures reply.Answered? ==> r == Strip(reply.content.GetOr(""))
  {
    match reply
    case Raised(e) => FailureMarker + ": " + e
    case NoChoices => ""
    case Answered(c) => Strip(c.GetOr(""))
  }

  /** The text is replaced by the fallback: it is empty or opens with the
      failure marker. */
  predicate Unusable(text: string)
  {
    text == "" || StartsWith(text, FailureMarker)
  }

  /** At most this many characters of the record are kept by the fallback. */
  const FallbackLength: nat := 500

  /** The tag hint appended to a fallback: " [标签: " and the tags joined
      by ", " and closed by "]", or nothing for an untagged record. */
  function TagHint(tags: seq<string>): (r: string)
    ensures r == "" <==> |tags| == 0
    ensures |tags| > 0 ==> StartsWith(r, " [标签: ") && EndsWith(r, "]")
    ensures forall i :: 0 <= i < |tags| ==> Contains(r, tags[i])
  {
    Bracketed(tags, " [标签: ", "]")
  }

  /** The fallback summary: the first 500 characters of the body (of the
      title when the body is empty), then the tag hint. */
  function Fallback(it: Item): (r: string)
    ensures |r| <= FallbackLength + |TagHint(it.tags)|
    ensures r == "" <==> it.content == "" && it.title == "" && |it.tags| == 0
    ensures it.content != "" ==> StartsWith(r, Take(it.content, FallbackLength))
    ensures it.content == "" ==> StartsWith(r, Take(it.title, FallbackLength))
    ensures EndsWith(r, TagHint(it.tags))
    ensures |r| == |Take(if it.content != "" then it.content else it.title, FallbackLength)| + |TagHint(it.tags)|
  {
    var source := if it.content != "" then it.content else it.title;
    EndsWithPrepend(Take(source, FallbackLength), TagHint(it.tags), TagHint(it.tags));
    Take(source, FallbackLength) + TagHint(it.tags)
  }

  /** What `summarize` returns. */
  datatype Summary = Summary(title: string, summary: string, url: string)

  /** `summarize` for one record whose call ended with `reply`. */
  function Summarize(it: Item, reply: Reply): (r: Summary)
    ensures r.title == it.title && r.url == it.url
    ensures Unusable(ReplyText(reply)) ==> r.summary == Fallback(it)
    ensures !Unusable(ReplyText(reply)) ==> r.summary == ReplyText(reply)
  {
    var text := ReplyText(reply);
    Summary(it.title, if Unusable(text) then Fallback(it) else text, it.url)
  }

  /** A call that raised never shows its error: the fallback is returned. */
  lemma RaisedFallsBack(it: Item, error: string)
    ensures Summarize(it, Raised(error)).summary == Fallback(it)
  {
  }

  /** An answer that is non-empty after stripping and does not open with
      the failure marker is returned stripped, with no surrounding
      whitespace left. */
  lemma AnswerIsKept(it: Item, content: string)
    ensures Strip(content) != "" && !StartsWith(Strip(content), FailureMarker) ==>
              Summarize(it, Answered(Some(content))).summary == Strip(content)
              && Strip(Summarize(it, Answered(Some(content))).summary) == Strip(content)
  {
    StripCharsIdempotent(content, Whitespace);
  }

  /** The summary is empty only for a record with no title, body or tags
      whose call failed. */
  lemma EmptySummary(it: Item, reply: Reply)
    ensures Summarize(it, reply).summary == "" <==>
            Unusable(ReplyText(reply)) && it.content == "" && it.title == "" && |it.tags| == 0
  {
  }

  /** `summarize_batch`: one summary per record, in the records' order,
      whatever order the worker threads finish in. */
  function SummarizeBatch(items: seq<Item>, replies: seq<Reply>): (r: seq<Summary>)
    requires |replies| == |items|
    ensures |r| == |items|
    ensures forall i :: 0 <= i < |r| ==> r[i].title == items[i].title && r[i].url == items[i].url
    ensures forall i :: 0 <= i < |r| ==> r[i] == Summarize(items[i], replies[i])
  {
    seq(|items|, i requires 0 <= i < |items| => Summarize(items[i], replies[i]))
  }
}
