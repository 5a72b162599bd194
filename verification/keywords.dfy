/** The keyword classifier of `news_crawler/config.py`: case-sensitive
    substring matching against four fixed vocabularies, plus the two
    synthetic tags that mark AI-industry and policy-class items. */
module Keywords {
  import opened Seqs
  import opened Strs

  /** Sector terms. */
  const TargetSectors: seq<string> := [
    "稀土", "白酒", "半导体", "芯片", "集成电路", "创新药", "医药创新",
    "雅江水电", "雅砻江", "抽水蓄能", "光伏", "光伏组件", "硅料", "水电"
  ]

  /** Policy, meeting, diplomacy and trade terms. */
  const PolicyKeywords: seq<string> := [
    "政策", "监管", "批复", "通知", "征求意见", "文件", "规范", "指导意见",
    "会议", "峰会", "会晤", "谈判", "磋商", "公报", "声明", "协定", "合意",
    "合作框架", "禁令", "禁运", "制裁", "关税", "出口管制"
  ]

  /** Precious-metal terms. */
  const GoldKeywords: seq<string> := [
    "黄金", "金价", "伦敦金", "COMEX黄金", "上海黄金交易所"
  ]

  /** AI-industry terms. */
  const AiKeywords: seq<string> := [
    "AI", "大模型", "模型", "LLM", "SOTA", "对齐", "推理", "多模态", "R1",
    "Llama", "Gemini", "Claude", "GPT", "o3", "Mistral", "xAI", "Grok",
    "Hugging Face", "OpenAI", "Anthropic", "Meta AI", "Google AI",
    "Microsoft", "DeepSeek", "Qwen", "通义千问", "Yi", "Baichuan", "智谱", "GLM"
  ]

  /** Added when some AI term matched. */
  const AiIndustryTag: string := "AI行业"

  /** Added when some policy term matched. */
  const PolicyClassTag: string := "政策类"

  /** The four vocabularies the classifier scans, in scanning order. The
      algorithm is stated over any vocabulary; `Config` is the one the
      source ships. */
  datatype Vocab = Vocab(sectors: seq<string>, policy: seq<string>, gold: seq<string>, ai: seq<string>)
  {
    /** Every term, in scanning order. */
    function Terms(): seq<string>
    {
      sectors + policy + gold + ai
    }

    /** Terms are non-empty and none is spelled like a synthetic tag. */
    predicate WellFormed()
    {
      && AiIndustryTag !in Terms()
      && PolicyClassTag !in Terms()
      && forall t :: t in Terms() ==> |t| > 0
    }
  }

  /** The vocabularies of the source. */
  const Config: Vocab := Vocab(TargetSectors, PolicyKeywords, GoldKeywords, AiKeywords)

  /** The terms of `terms` that occur in `text`, in list order. */
  function Hits(terms: seq<string>, text: string): (r: seq<string>)
    ensures forall i :: 0 <= i < |r| ==> r[i] in terms && Contains(text, r[i])
    decreases |terms|
  {
    if |terms| == 0 then []
    else
      var rest := Hits(terms[1..], text);
      assert forall i :: 0 <= i < |rest| ==> rest[i] in terms;
      (if Contains(text, terms[0]) then [terms[0]] else []) + rest
  }

  /** A hit is a term of the list that occurs in the text, and every such
      term is a hit. */
  lemma {:induction false} HitsMember(terms: seq<string>, text: string, t: string)
    ensures t in Hits(terms, text) <==> t in terms && Contains(text, t)
    decreases |terms|
  {
    if |terms| > 0 {
      HitsMember(terms[1..], text, t);
      assert t in terms <==> t == terms[0] || t in terms[1..];
    }
  }

  /** The tag list before de-duplication: sector hits, policy hits, gold
      hits, AI hits, then the synthetic tags. Each is a term that occurs
      in the text or a synthetic tag. */
  function RawTags(v: Vocab, text: string): (r: seq<string>)
    ensures forall i :: 0 <= i < |r| ==>
              (r[i] in v.Terms() && Contains(text, r[i])) || r[i] == AiIndustryTag || r[i] == PolicyClassTag
  {
    var hits := Hits(v.sectors, text) + Hits(v.policy, text) + Hits(v.gold, text) + Hits(v.ai, text);
    assert forall i :: 0 <= i < |hits| ==> hits[i] in v.Terms() && Contains(text, hits[i]);
    hits
      + (if |Hits(v.ai, text)| > 0 then [AiIndustryTag] else [])
      + (if |Hits(v.policy, text)| > 0 then [PolicyClassTag] else [])
  }

  /** A tag is its own de-duplication key. */
  function Self(t: string): string
  {
    t
  }

  /** The classifier over vocabulary `v`: the raw tags with repeats
      dropped, so no tag is returned twice, and each is a term that occurs
      in the text or a synthetic tag. */
  function Classify(v: Vocab, text: string): (r: seq<string>)
    ensures forall i, j :: 0 <= i < j < |r| ==> r[i] != r[j]
    ensures forall i :: 0 <= i < |r| ==> Contains(text, r[i]) || r[i] == AiIndustryTag || r[i] == PolicyClassTag
  {
    DedupTags(RawTags(v, text), text);
    DedupBy(RawTags(v, text), Self, {})
  }

  /** De-duplicating a tag list leaves each tag once and adds none. */
  lemma DedupTags(raw: seq<string>, text: string)
    requires forall i :: 0 <= i < |raw| ==> Contains(text, raw[i]) || raw[i] == AiIndustryTag || raw[i] == PolicyClassTag
    ensures var r := DedupBy(raw, Self, {});
            && (forall i, j :: 0 <= i < j < |r| ==> r[i] != r[j])
            && (forall i :: 0 <= i < |r| ==> Contains(text, r[i]) || r[i] == AiIndustryTag || r[i] == PolicyClassTag)
  {
    var r := DedupBy(raw, Self, {});
    assert forall i, j :: 0 <= i < j < |r| ==> Self(r[i]) != Self(r[j]);
    DedupByIsSubseq(raw, Self, {});
    SubseqElements(r, raw);
  }

  /** `match_keywords(text)`: the classifier over the source's
      vocabularies. What it returns is stated by the lemmas below. */
  function MatchKeywords(text: string): seq<string>
  {
    Classify(Config, text)
  }

  /** Some term of `terms` occurs in `text`. */
  predicate AnyHit(terms: seq<string>, text: string)
  {
    exists t :: t in terms && Contains(text, t)
  }

  /** The early-return scan `any(t in text for t in terms)`: it answers
      whether some term occurs in the text. */
  function MatchesAny(terms: seq<string>, text: string): (r: bool)
    ensures r <==> AnyHit(terms, text)
    decreases |terms|
  {
    if |terms| == 0 then false
    else if Contains(text, terms[0]) then true
    else
      var rest := MatchesAny(terms[1..], text);
      assert AnyHit(terms, text) <==> AnyHit(terms[1..], text) by {
        if AnyHit(terms, text) {
          var t :| t in terms && Contains(text, t);
          assert t in terms[1..];
        }
        if AnyHit(terms[1..], text) {
          var t :| t in terms[1..] && Contains(text, t);
          assert t in terms;
        }
      }
      rest
  }

  /** De-duplication keeps every raw tag and adds none. */
  lemma ClassifyElements(v: Vocab, text: string)
    ensures forall t :: t in Classify(v, text) <==> t in RawTags(v, text)
  {
    var raw := RawTags(v, text);
    var r := Classify(v, text);
    forall t | t in raw ensures t in r {
      var i :| 0 <= i < |raw| && raw[i] == t;
      assert Self(raw[i]) in Keys(raw, Self);
      var j :| 0 <= j < |r| && Self(r[j]) == t;
    }
  }

  /** Some term hits exactly when some term occurs. */
  lemma HitsNonEmpty(terms: seq<string>, text: string)
    ensures |Hits(terms, text)| > 0 <==> AnyHit(terms, text)
  {
    var h := Hits(terms, text);
    if |h| > 0 {
      HitsMember(terms, text, h[0]);
    }
    if AnyHit(terms, text) {
      var t :| t in terms && Contains(text, t);
      HitsMember(terms, text, t);
    }
  }

  /** What the raw tag list holds: the vocabulary terms that occur in the
      text, the AI-industry tag when an AI term occurs, the policy-class
      tag when a policy term occurs. */
  lemma RawTagsMember(v: Vocab, text: string, t: string)
    ensures t in RawTags(v, text) <==>
              (t in v.Terms() && Contains(text, t))
              || (t == AiIndustryTag && AnyHit(v.ai, text))
              || (t == PolicyClassTag && AnyHit(v.policy, text))
  {
    HitsNonEmpty(v.ai, text);
    HitsNonEmpty(v.policy, text);
    HitsMember(v.sectors, text, t);
    HitsMember(v.policy, text, t);
    HitsMember(v.gold, text, t);
    HitsMember(v.ai, text, t);
    assert t in v.Terms() <==> t in v.sectors || t in v.policy || t in v.gold || t in v.ai;
  }

  /** A vocabulary term that is not spelled like a synthetic tag is a tag
      exactly when it occurs in the text. */
  lemma ClassifyTerm(v: Vocab, text: string, t: string)
    requires t in v.Terms() && t != AiIndustryTag && t != PolicyClassTag
    ensures t in Classify(v, text) <==> Contains(text, t)
  {
    ClassifyElements(v, text);
    RawTagsMember(v, text, t);
  }

  /** When no term is spelled like it, the AI-industry tag is present
      exactly when some AI term occurs. */
  lemma ClassifyAiTag(v: Vocab, text: string)
    requires AiIndustryTag !in v.Terms()
    ensures AiIndustryTag in Classify(v, text) <==> AnyHit(v.ai, text)
  {
    ClassifyElements(v, text);
    RawTagsMember(v, text, AiIndustryTag);
  }

  /** When no term is spelled like it, the policy-class tag is present
      exactly when some policy term occurs. */
  lemma ClassifyPolicyTag(v: Vocab, text: string)
    requires PolicyClassTag !in v.Terms()
    ensures PolicyClassTag in Classify(v, text) <==> AnyHit(v.policy, text)
  {
    ClassifyElements(v, text);
    RawTagsMember(v, text, PolicyClassTag);
  }

  /** Nothing but a vocabulary term or a synthetic tag is ever a tag. */
  lemma ClassifyKnown(v: Vocab, text: string, t: string)
    requires t in Classify(v, text)
    ensures t in v.Terms() || t == AiIndustryTag || t == PolicyClassTag
  {
    ClassifyElements(v, text);
    RawTagsMember(v, text, t);
  }

  /** Over a well-formed vocabulary, a term is a tag exactly when it occurs
      in the text; the AI-industry tag is present exactly when an AI term
      occurs, the policy-class tag exactly when a policy term occurs; and
      nothing else is ever a tag. */
  lemma ClassifySpec(v: Vocab, text: string)
    requires v.WellFormed()
    ensures forall t :: t in v.Terms() ==> (t in Classify(v, text) <==> Contains(text, t))
    ensures AiIndustryTag in Classify(v, text) <==> AnyHit(v.ai, text)
    ensures PolicyClassTag in Classify(v, text) <==> AnyHit(v.policy, text)
    ensures forall t :: t in Classify(v, text) ==>
      t in v.Terms() || t == AiIndustryTag || t == PolicyClassTag
  {
    forall t | t in v.Terms() ensures t in Classify(v, text) <==> Contains(text, t) {
      ClassifyTerm(v, text, t);
    }
    ClassifyAiTag(v, text);
    ClassifyPolicyTag(v, text);
    forall t | t in Classify(v, text) ensures t in v.Terms() || t == AiIndustryTag || t == PolicyClassTag {
      ClassifyKnown(v, text, t);
    }
  }

  /** The terms of `terms` are non-empty and none is a synthetic tag. */
  predicate PlainTerms(terms: seq<string>)
  {
    forall t :: t in terms ==> |t| > 0 && t != AiIndustryTag && t != PolicyClassTag
  }

  // Each vocabulary of the source is plain.
  lemma SectorTermsArePlain() ensures PlainTerms(TargetSectors) {}
  lemma PolicyTermsArePlain() ensures PlainTerms(PolicyKeywords) {}
  lemma GoldTermsArePlain() ensures PlainTerms(GoldKeywords) {}
  lemma AiTermsArePlain() ensures PlainTerms(AiKeywords) {}

  /** Every term of the source's vocabularies is non-empty and spelled
      unlike either synthetic tag. */
  lemma ConfigTermIsPlain(t: string)
    requires t in Config.Terms()
    ensures |t| > 0 && t != AiIndustryTag && t != PolicyClassTag
  {
    assert t in TargetSectors || t in PolicyKeywords || t in GoldKeywords || t in AiKeywords;
    if t in TargetSectors {
      SectorTermsArePlain();
    } else if t in PolicyKeywords {
      PolicyTermsArePlain();
    } else if t in GoldKeywords {
      GoldTermsArePlain();
    } else {
      AiTermsArePlain();
    }
  }

  /** No term of the source's vocabularies is spelled like a synthetic tag. */
  lemma ConfigHasNoTagTerms()
    ensures AiIndustryTag !in Config.Terms() && PolicyClassTag !in Config.Terms()
  {
    if AiIndustryTag in Config.Terms() {
      ConfigTermIsPlain(AiIndustryTag);
    }
    if PolicyClassTag in Config.Terms() {
      ConfigTermIsPlain(PolicyClassTag);
    }
  }

  /** The source's vocabularies are well formed. */
  lemma ConfigWellFormed()
    ensures Config.WellFormed()
  {
    ConfigHasNoTagTerms();
    forall t | t in Config.Terms() ensures |t| > 0 {
      ConfigTermIsPlain(t);
    }
  }

  /** A term of the source's vocabularies is a tag exactly when it occurs in
      the text. */
  lemma TermTaggedIffOccurs(text: string, t: string)
    ensures t in Config.Terms() ==> (t in MatchKeywords(text) <==> Contains(text, t))
  {
    if t in Config.Terms() {
      ConfigTermIsPlain(t);
      ClassifyTerm(Config, text, t);
    }
  }

  /** The AI-industry tag is present exactly when some AI term occurs. */
  lemma AiTagIffAiTerm(text: string)
    ensures AiIndustryTag in MatchKeywords(text) <==> AnyHit(AiKeywords, text)
  {
    ConfigHasNoTagTerms();
    ClassifyAiTag(Config, text);
  }

  /** The policy-class tag is present exactly when some policy term occurs. */
  lemma PolicyTagIffPolicyTerm(text: string)
    ensures PolicyClassTag in MatchKeywords(text) <==> AnyHit(PolicyKeywords, text)
  {
    ConfigHasNoTagTerms();
    ClassifyPolicyTag(Config, text);
  }

  /** Every tag is a vocabulary term or one of the two synthetic tags. */
  lemma TagsAreKnown(text: string)
    ensures forall t :: t in MatchKeywords(text) ==>
      t in Config.Terms() || t == AiIndustryTag || t == PolicyClassTag
  {
    forall t | t in MatchKeywords(text) ensures t in Config.Terms() || t == AiIndustryTag || t == PolicyClassTag {
      ClassifyKnown(Config, text, t);
    }
  }

  /** Non-empty terms never occur in the empty string. */
  lemma {:induction false} HitsInEmptyText(terms: seq<string>)
    requires forall t :: t in terms ==> |t| > 0
    ensures Hits(terms, "") == []
    decreases |terms|
  {
    if |terms| > 0 {
      ContainsInEmpty(terms[0]);
      HitsInEmptyText(terms[1..]);
    }
  }

  /** Over a well-formed vocabulary, empty text matches nothing. */
  lemma ClassifyEmptyText(v: Vocab)
    requires v.WellFormed()
    ensures Classify(v, "") == []
  {
    HitsInEmptyText(v.sectors);
    HitsInEmptyText(v.policy);
    HitsInEmptyText(v.gold);
    HitsInEmptyText(v.ai);
    assert RawTags(v, "") == [];
  }

  /** Empty text gets no tags. */
  lemma EmptyTextHasNoTags()
    ensures MatchKeywords("") == []
  {
    ConfigWellFormed();
    ClassifyEmptyText(Config);
  }

  /** Tags come out in the order of their first occurrence in the scan:
      sector hits, policy hits, gold hits, AI hits, then the AI-industry tag,
      then the policy-class tag, with repeats dropped. */
  lemma TagOrderIsFirstOccurrence(text: string)
    ensures MatchKeywords(text) == Firsts(RawTags(Config, text), Self, {})
    ensures IsSubseq(MatchKeywords(text), RawTags(Config, text))
  {
    DedupByIsFirsts(RawTags(Config, text), Self, {});
    DedupByIsSubseq(RawTags(Config, text), Self, {});
  }

  /** Over a vocabulary whose sector terms are neither policy nor AI terms,
      a text in which exactly one vocabulary term occurs, a sector term, is
      tagged with that term alone: no synthetic tag is added. */
  lemma ClassifySingleSectorTerm(v: Vocab, text: string, t: string)
    requires t in v.sectors && t !in v.policy && t !in v.ai
    requires forall u :: u in v.Terms() ==> (Contains(text, u) <==> u == t)
    ensures Classify(v, text) == [t]
  {
    var raw := RawTags(v, text);
    HitsNonEmpty(v.policy, text);
    HitsNonEmpty(v.ai, text);
    HitsMember(v.sectors, text, t);
    forall i | 0 <= i < |raw| ensures raw[i] == t {
      assert raw[i] in raw;
      RawTagsMember(v, text, raw[i]);
    }
    DedupByConstant(raw, t, Self, {});
  }

  /** No sector term of the source is also a policy or AI term. */
  lemma SectorTermsAreOnlySectorTerms()
    ensures forall t :: t in TargetSectors ==> t !in PolicyKeywords && t !in AiKeywords
  {
    SectorTermsAreNotPolicyTerms();
    SectorTermsAreNotAiTerms();
  }

  /** The first seven sector terms are not policy terms. */
  lemma FirstSectorsAreNotPolicyTerms()
    ensures forall i :: 0 <= i < 7 ==> TargetSectors[i] !in PolicyKeywords
  {
  }

  /** The last seven sector terms are not policy terms. */
  lemma LastSectorsAreNotPolicyTerms()
    ensures forall i :: 7 <= i < |TargetSectors| ==> TargetSectors[i] !in PolicyKeywords
  {
  }

  /** The first seven sector terms are not AI terms. */
  lemma FirstSectorsAreNotAiTerms()
    ensures forall i :: 0 <= i < 7 ==> TargetSectors[i] !in AiKeywords
  {
  }

  /** The last seven sector terms are not AI terms. */
  lemma LastSectorsAreNotAiTerms()
    ensures forall i :: 7 <= i < |TargetSectors| ==> TargetSectors[i] !in AiKeywords
  {
  }

  /** No sector term of the source is a policy term. */
  lemma SectorTermsAreNotPolicyTerms()
    ensures forall t :: t in TargetSectors ==> t !in PolicyKeywords
  {
    FirstSectorsAreNotPolicyTerms();
    LastSectorsAreNotPolicyTerms();
    forall t | t in TargetSectors ensures t !in PolicyKeywords {
      var i :| 0 <= i < |TargetSectors| && TargetSectors[i] == t;
    }
  }

  /** No sector term of the source is an AI term. */
  lemma SectorTermsAreNotAiTerms()
    ensures forall t :: t in TargetSectors ==> t !in AiKeywords
  {
    FirstSectorsAreNotAiTerms();
    LastSectorsAreNotAiTerms();
    forall t | t in TargetSectors ensures t !in AiKeywords {
      var i :| 0 <= i < |TargetSectors| && TargetSectors[i] == t;
    }
  }

  /** A text in which exactly one term of the source's vocabularies occurs, a
      sector term, is tagged with that term alone. */
  lemma SingleSectorTerm(text: string, t: string)
    requires t in TargetSectors
    requires forall u :: u in Config.Terms() ==> (Contains(text, u) <==> u == t)
    ensures MatchKeywords(text) == [t]
  {
    SectorTermsAreOnlySectorTerms();
    ClassifySingleSectorTerm(Config, text, t);
  }
}
