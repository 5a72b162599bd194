/** The fallback gold-quote collector of `news_crawler/gold_price_sina.py`:
    each line of the quote service's answer, `var hq_str_X="f0,f1,...";`,
    becomes one record when its payload has at least six comma-separated
    fields. The HTTP request and the line splitting are outside the model:
    the answer arrives as its lines, or as the request's error. */
module SinaGold {
  import opened Optional
  import opened Seqs
  import opened Strs
  import opened NewsItem

  /** The page every parsed quote links to. */
  const QuoteUrl: string := "https://finance.sina.com.cn/money/forex/hq/XAUUSD.shtml"

  /** The least number of fields a quote must have. */
  const MinFields: nat := 6

  /** The payload of the text after the first `=`: surrounding whitespace,
      then semicolons, then double quotes stripped, in this order. It is the
      text with only whitespace, semicolons and double quotes cut from its
      two ends, and it neither opens nor closes with a double quote. */
  function Payload(rest: string): (r: string)
    ensures Trimmed(rest, r, Whitespace + {';'} + {'"'})
    ensures Contains(rest, r)
    ensures |r| > 0 ==> r[0] != '"' && r[|r| - 1] != '"'
  {
    StripCharsThrice(rest, Whitespace, {';'}, {'"'});
    StripChars(StripChars(Strip(rest), {';'}), {'"'})
  }

  /** The payload is the three strips of the source, in order: surrounding
      whitespace, then semicolons, then double quotes, each cut completely
      from both ends. */
  lemma PayloadIsThreeStrips(rest: string)
    ensures exists a, b :: Stripped(rest, a, Whitespace) && Stripped(a, b, {';'}) && Stripped(b, Payload(rest), {'"'})
  {
    var a := Strip(rest);
    var b := StripChars(a, {';'});
    assert Stripped(rest, a, Whitespace);
    assert Stripped(a, b, {';'});
    assert Stripped(b, Payload(rest), {'"'});
  }

  /** The record built from the fields of a quote: name, last, open, high
      and low in the title; previous close and the last two fields (date
      and time) in the body. */
  function Quote(parts: seq<string>): (it: Item)
    requires |parts| >= MinFields
    ensures it.url == QuoteUrl && it.tags == []
    ensures StartsWith(it.title, "黄金 | ")
    ensures StartsWith(it.title, "黄金 | " + parts[0] + " 现价:" + parts[1] + " 开盘:" + parts[2])
    ensures EndsWith(it.title, " 高:" + parts[4] + " 低:" + parts[5])
    ensures StartsWith(it.content, "昨收:" + parts[3])
    ensures EndsWith(it.content, " 时间:" + parts[|parts| - 2] + " " + parts[|parts| - 1])
    ensures |it.title| == |"黄金 | " + parts[0] + " 现价:" + parts[1] + " 开盘:" + parts[2]| + |" 高:" + parts[4] + " 低:" + parts[5]|
    ensures |it.content| == |"昨收:" + parts[3]| + |" 时间:" + parts[|parts| - 2] + " " + parts[|parts| - 1]|
  {
    var head := "黄金 | " + parts[0] + " 现价:" + parts[1] + " 开盘:" + parts[2];
    var tail := " 高:" + parts[4] + " 低:" + parts[5];
    var close := "昨收:" + parts[3];
    var stamp := " 时间:" + parts[|parts| - 2] + " " + parts[|parts| - 1];
    assert head == "黄金 | " + (parts[0] + " 现价:" + parts[1] + " 开盘:" + parts[2]);
    ConcatFrame(head, tail);
    ConcatFrame(close, stamp);
    Untagged(head + tail, close + stamp, QuoteUrl)
  }

  /** `_parse_line`: `None` for a line without `=` or with fewer than six
      fields. */
  function ParseLine(line: string): (r: Option<Item>)
    ensures r.Some? ==> r.value.url == QuoteUrl && r.value.tags == []
    ensures r.Some? ==> exists parts :: |parts| >= MinFields && r.value == Quote(parts)
  {
    match Find(line, '=')
    case None => None
    case Some(i) =>
      var parts := Split(Payload(line[i + 1..]), ',');
      if |parts| < MinFields then None else Some(Quote(parts))
  }

  /** A line parses exactly when it has an `=` and the payload after the
      first one holds at least five commas. */
  lemma ParseLineAccepts(line: string, i: nat)
    requires FirstEqualsAt(line, i)
    ensures ParseLine(line).Some? <==> Occurrences(Payload(line[i + 1..]), ',') >= MinFields - 1
  {
    FirstEqualsIsFind(line, i);
    SplitLength(Payload(line[i + 1..]), ',');
  }

  /** A line without `=` never parses. */
  lemma ParseLineNeedsEquals(line: string)
    requires '=' !in line
    ensures ParseLine(line).None?
  {
  }

  /** The first `=` is the one `find` reports. */
  lemma FirstEqualsIsFind(line: string, i: nat)
    requires FirstEqualsAt(line, i)
    ensures Find(line, '=') == Some(i)
  {
  }

  /** `i` is the position of the first `=` of `line`. */
  predicate FirstEqualsAt(line: string, i: int)
  {
    0 <= i < |line| && line[i] == '=' && '=' !in line[..i]
  }

  /** The answer line for quote `name` with the given fields. */
  function QuoteLine(name: string, fields: seq<string>): string
  {
    name + "=\"" + Join(fields, ",") + "\";"
  }

  /** Parsing a well-formed answer line gives back the record of its
      fields: the name holds no `=`, there are at least six fields, none
      holds a comma, and the first field does not start, nor the last end,
      with a double quote. */
  lemma ParseQuoteLine(name: string, fields: seq<string>)
    requires '=' !in name
    requires |fields| >= MinFields
    requires forall i :: 0 <= i < |fields| ==> ',' !in fields[i]
    requires |fields[0]| > 0 && fields[0][0] != '"'
    requires |fields[|fields| - 1]| > 0 && fields[|fields| - 1][|fields[|fields| - 1]| - 1] != '"'
    ensures ParseLine(QuoteLine(name, fields)) == Some(Quote(fields))
  {
    var j := Join(fields, ",");
    var line := QuoteLine(name, fields);
    var rest := "\"" + j + "\";";
    assert |j| > 0 && j[0] != '"' && j[|j| - 1] != '"' by {
      JoinEnds(fields, ",");
      var last := fields[|fields| - 1];
      assert j[|j| - 1] == last[|last| - 1];
    }
    assert line == name + "=" + rest;
    EqualsAfterName(name, rest);
    PayloadOfQuoted(j);
    SplitJoin(fields, ',');
  }

  /** The first `=` of `name + "=" + rest` follows the name. */
  lemma EqualsAfterName(name: string, rest: string)
    requires '=' !in name
    ensures Find(name + "=" + rest, '=') == Some(|name|)
    ensures (name + "=" + rest)[|name| + 1..] == rest
  {
    var line := name + "=" + rest;
    assert line[|name|] == '=' && line[..|name|] == name;
    FirstEqualsIsFind(line, |name|);
  }

  /** The payload of `"j";` is `j` when `j` neither starts nor ends with a
      double quote. */
  lemma PayloadOfQuoted(j: string)
    requires |j| > 0 && j[0] != '"' && j[|j| - 1] != '"'
    ensures Payload("\"" + j + "\";") == j
  {
    StripKeepsQuoted(j);
    StripDropsSemicolon(j);
    StripCharsFrame("\"", j, "\"", {'"'});
  }

  /** Whitespace stripping leaves `"j";` alone: it starts with a quote and
      ends with a semicolon. */
  lemma StripKeepsQuoted(j: string)
    ensures Strip("\"" + j + "\";") == "\"" + j + "\";"
  {
    var rest := "\"" + j + "\";";
    assert rest[0] == '"' && rest[|rest| - 1] == ';';
    assert '"' !in Whitespace && ';' !in Whitespace;
    StripCharsNoEdges(rest, Whitespace);
  }

  /** Stripping semicolons from `"j";` drops the final semicolon only. */
  lemma StripDropsSemicolon(j: string)
    ensures StripChars("\"" + j + "\";", {';'}) == "\"" + j + "\""
  {
    var quoted := "\"" + j + "\"";
    assert quoted[0] == '"' && quoted[|quoted| - 1] == '"';
    assert "\"" + j + "\";" == quoted + [';'];
    DropTrailing(quoted, ';');
  }

  /** Stripping `c` from `x` followed by one `c` gives back `x` when `x`
      neither starts nor ends with `c`. */
  lemma DropTrailing(x: string, c: char)
    requires |x| > 0 && x[0] != c && x[|x| - 1] != c
    ensures StripChars(x + [c], {c}) == x
  {
    assert AllIn([c], {c}) && AllIn("", {c});
    StripCharsFrame("", x, [c], {c});
    assert "" + x + [c] == x + [c];
  }

  /** The collector's loop over the answer's lines: the records of the
      lines that parse, in line order. */
  function ParseAll(lines: seq<string>): (r: seq<Item>)
    ensures |r| <= |lines|
  {
    FilterMap(lines, ParseLine)
  }

  /** Every record of the loop is a quote record: it links to the quote
      page, carries no tags and is the parse of one of the lines. */
  lemma ParsedRecordsAreQuotes(lines: seq<string>)
    ensures forall k :: 0 <= k < |ParseAll(lines)| ==>
              ParseAll(lines)[k].url == QuoteUrl && ParseAll(lines)[k].tags == []
              && ResultOf(lines, ParseLine, ParseAll(lines)[k])
  {
    FilterMapElements(lines, ParseLine);
    forall k | 0 <= k < |ParseAll(lines)|
      ensures ParseAll(lines)[k].url == QuoteUrl && ParseAll(lines)[k].tags == []
    {
      assert ResultOf(lines, ParseLine, ParseAll(lines)[k]);
      var i :| 0 <= i < |lines| && ParseLine(lines[i]) == Some(ParseAll(lines)[k]);
    }
  }

  /** The line parses. */
  predicate Parses(line: string)
  {
    ParseLine(line).Some?
  }

  /** One record per line that parses. */
  lemma ParseAllCount(lines: seq<string>)
    ensures |ParseAll(lines)| == CountIf(lines, Parses)
  {
    FilterMapCount(lines, ParseLine, Parses);
  }

  /** The lines are parsed one at a time: the records of two batches of
      lines are the records of each batch, in order. */
  lemma ParseAllConcat(a: seq<string>, b: seq<string>)
    ensures ParseAll(a + b) == ParseAll(a) + ParseAll(b)
  {
    FilterMapConcat(a, b, ParseLine);
  }

  /** What the quote service's request gave: the answer's lines, or the
      request's error. */
  datatype Answer = Lines(lines: seq<string>) | RequestFailed(error: string)

  /** The title of the placeholder record a failed request yields. */
  const FailureTitle: string := "黄金价格抓取失败(新浪)"

  /** `crawl`: the parsed quotes, or a single placeholder naming the
      error. */
  function Crawl(answer: Answer): (r: seq<Item>)
    ensures answer.RequestFailed? ==> |r| == 1 && r[0].title == FailureTitle && r[0].url == ""
                                      && EndsWith(r[0].content, answer.error)
    ensures answer.Lines? ==> |r| <= |answer.lines|
  {
    match answer
    case Lines(ls) => ParseAll(ls)
    case RequestFailed(e) =>
      EndsWithPrepend("失败: ", e, e);
      [Untagged(FailureTitle, "失败: " + e, "")]
  }
}
