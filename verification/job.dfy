/** One scheduled job of `main.py`: the collected records are split into
    three buckets by their tags, and a per-run selection is made from them
    (the "core one" bucket only at two wall-clock times, at most five
    policy records and at most eight AI records). The wall-clock reading
    is the parameter `hhmm`. */
module Job {
  import opened Seqs
  import opened NewsItem
  import opened Keywords

  /** The bucket a record goes to. */
  datatype Bucket = Core1 | PolicyBucket | AiBucket

  /** The bucket is decided by the two synthetic tags alone, the AI tag
      taking precedence; a record with neither is "core one". */
  function BucketOf(it: Item): (b: Bucket)
    ensures b == AiBucket <==> AiIndustryTag in it.tags
    ensures b == PolicyBucket <==> AiIndustryTag !in it.tags && PolicyClassTag in it.tags
    ensures b == Core1 <==> AiIndustryTag !in it.tags && PolicyClassTag !in it.tags
  {
    if AiIndustryTag in it.tags then AiBucket
    else if PolicyClassTag in it.tags then PolicyBucket
    else Core1
  }

  /** The records of `news` that go to bucket `b`, as a filter predicate. */
  function In<T>(bucket: T -> Bucket, b: Bucket): T -> bool
  {
    x => bucket(x) == b
  }

  /** The three lists the job's loop builds. */
  datatype Buckets<T> = Buckets(core1: seq<T>, policy: seq<T>, ai: seq<T>)

  /** The job's loop: each record is appended to the list of its bucket,
      in arrival order. The source's bucketing is `BucketOf`; the loop is
      stated for any bucketing function. */
  method Partition<T>(news: seq<T>, bucket: T -> Bucket) returns (b: Buckets<T>)
    ensures b.core1 == Filter(news, In(bucket, Core1))
    ensures b.policy == Filter(news, In(bucket, PolicyBucket))
    ensures b.ai == Filter(news, In(bucket, AiBucket))
  {
    var core1, policy, ai := [], [], [];
    var i := 0;
    while i < |news|
      invariant 0 <= i <= |news|
      invariant core1 == Filter(news[..i], In(bucket, Core1))
      invariant policy == Filter(news[..i], In(bucket, PolicyBucket))
      invariant ai == Filter(news[..i], In(bucket, AiBucket))
    {
      var it := news[i];
      FilterStep(news, i, In(bucket, Core1));
      FilterStep(news, i, In(bucket, PolicyBucket));
      FilterStep(news, i, In(bucket, AiBucket));
      match bucket(it) {
        case AiBucket => ai := ai + [it];
        case PolicyBucket => policy := policy + [it];
        case Core1 => core1 := core1 + [it];
      }
      i := i + 1;
    }
    assert news[..i] == news;
    b := Buckets(core1, policy, ai);
  }

  /** Extending the prefix by one record extends its filter by that record
      when it passes. */
  lemma FilterStep<T>(news: seq<T>, i: nat, p: T -> bool)
    requires i < |news|
    ensures Filter(news[..i + 1], p) == Filter(news[..i], p) + (if p(news[i]) then [news[i]] else [])
  {
    assert news[..i + 1] == news[..i] + [news[i]];
    FilterConcat(news[..i], [news[i]], p);
    FilterSingleton(news[i], p);
  }

  /** Every record lands in exactly one bucket: the three buckets hold the
      input records, as a multiset. */
  lemma {:induction false} PartitionCovers<T>(news: seq<T>, bucket: T -> Bucket)
    ensures multiset(Filter(news, In(bucket, Core1))) + multiset(Filter(news, In(bucket, PolicyBucket)))
            + multiset(Filter(news, In(bucket, AiBucket))) == multiset(news)
    decreases |news|
  {
    if |news| > 0 {
      var it, rest := news[0], news[1..];
      var pc, pp, pa := In(bucket, Core1), In(bucket, PolicyBucket), In(bucket, AiBucket);
      assert news == [it] + rest;
      FilterConsMultiset(it, rest, pc);
      FilterConsMultiset(it, rest, pp);
      FilterConsMultiset(it, rest, pa);
      OneBucket(it, bucket);
      PartitionCovers(rest, bucket);
    }
  }

  /** Filtering a non-empty sequence, as multisets: its head's part plus
      its tail's. */
  lemma FilterConsMultiset<T>(it: T, rest: seq<T>, p: T -> bool)
    ensures multiset(Filter([it] + rest, p)) == multiset(Filter([it], p)) + multiset(Filter(rest, p))
  {
    FilterConcat([it], rest, p);
  }

  /** A single record goes to exactly one bucket. */
  lemma OneBucket<T>(it: T, bucket: T -> Bucket)
    ensures multiset(Filter([it], In(bucket, Core1))) + multiset(Filter([it], In(bucket, PolicyBucket)))
            + multiset(Filter([it], In(bucket, AiBucket))) == multiset([it])
  {
    FilterSingleton(it, In(bucket, Core1));
    FilterSingleton(it, In(bucket, PolicyBucket));
    FilterSingleton(it, In(bucket, AiBucket));
  }

  /** The two wall-clock times (Asia/Shanghai, "HH:MM") at which the
      "core one" bucket may be pushed. */
  const Core1Times: set<string> := {"11:50", "18:00"}

  /** At most this many policy records per run. */
  const PolicyCap: nat := 5

  /** At most this many AI records per run. */
  const AiCap: nat := 8

  /** The job's selection for a run at wall-clock time `hhmm`; the source
      selects with `bucket` = `BucketOf`. */
  function Select<T>(news: seq<T>, bucket: T -> Bucket, hhmm: string): (sel: seq<T>)
    ensures forall i :: 0 <= i < |sel| ==> sel[i] in news
    ensures |sel| <= (if hhmm in Core1Times then CountIf(news, In(bucket, Core1)) else 0) + PolicyCap + AiCap
  {
    var core1 := Filter(news, In(bucket, Core1));
    var policy := Take(Filter(news, In(bucket, PolicyBucket)), PolicyCap);
    var ai := Take(Filter(news, In(bucket, AiBucket)), AiCap);
    FilterLength(news, In(bucket, Core1));
    assert forall i :: 0 <= i < |policy| ==> policy[i] == Filter(news, In(bucket, PolicyBucket))[i];
    assert forall i :: 0 <= i < |ai| ==> ai[i] == Filter(news, In(bucket, AiBucket))[i];
    (if hhmm in Core1Times then core1 else []) + policy + ai
  }

  /** The three parts of a selection, each of one bucket only. */
  lemma SelectParts<T>(news: seq<T>, bucket: T -> Bucket, hhmm: string)
    ensures Select(news, bucket, hhmm) ==
            (if hhmm in Core1Times then Filter(news, In(bucket, Core1)) else [])
            + Take(Filter(news, In(bucket, PolicyBucket)), PolicyCap)
            + Take(Filter(news, In(bucket, AiBucket)), AiCap)
  {
  }

  /** Where a bucket stands in the selection order. */
  function Rank(b: Bucket): nat
  {
    match b
    case Core1 => 0
    case PolicyBucket => 1
    case AiBucket => 2
  }

  /** The selection is ordered by bucket: the "core one" records first,
      then the policy records, then the AI records. */
  lemma SelectOrder<T>(news: seq<T>, bucket: T -> Bucket, hhmm: string)
    ensures var sel := Select(news, bucket, hhmm);
            forall i, j :: 0 <= i < j < |sel| ==> Rank(bucket(sel[i])) <= Rank(bucket(sel[j]))
  {
    var sel := Select(news, bucket, hhmm);
    var core1 := if hhmm in Core1Times then Filter(news, In(bucket, Core1)) else [];
    var policy := Take(Filter(news, In(bucket, PolicyBucket)), PolicyCap);
    var ai := Take(Filter(news, In(bucket, AiBucket)), AiCap);
    SelectParts(news, bucket, hhmm);
    TakeFilter(news, In(bucket, PolicyBucket), PolicyCap);
    TakeFilter(news, In(bucket, AiBucket), AiCap);
    forall k | 0 <= k < |sel|
      ensures Rank(bucket(sel[k])) == if k < |core1| then 0 else if k < |core1| + |policy| then 1 else 2
    {
      if k < |core1| {
        assert sel[k] == core1[k];
      } else if k < |core1| + |policy| {
        assert sel[k] == policy[k - |core1|];
      } else {
        assert sel[k] == ai[k - |core1| - |policy|];
      }
    }
  }

  /** Every element of a prefix of `Filter(s, p)` satisfies `p`. */
  lemma TakeFilter<T>(s: seq<T>, p: T -> bool, n: nat)
    ensures forall i :: 0 <= i < |Take(Filter(s, p), n)| ==> p(Take(Filter(s, p), n)[i])
  {
    var t := Take(Filter(s, p), n);
    assert forall i :: 0 <= i < |t| ==> t[i] == Filter(s, p)[i];
  }

  /** Filtering a three-part sequence filters each part. */
  lemma FilterConcat3<T>(a: seq<T>, b: seq<T>, c: seq<T>, p: T -> bool)
    ensures Filter(a + b + c, p) == Filter(a, p) + Filter(b, p) + Filter(c, p)
  {
    FilterConcat(a + b, c, p);
    FilterConcat(a, b, p);
  }

  /** Read back by bucket, the selection is: the whole "core one" bucket at
      the two allowed times and nothing of it otherwise, the first five
      policy records and the first eight AI records, each in arrival
      order. */
  lemma SelectByBucket<T>(news: seq<T>, bucket: T -> Bucket, hhmm: string)
    ensures Filter(Select(news, bucket, hhmm), In(bucket, Core1)) ==
            if hhmm in Core1Times then Filter(news, In(bucket, Core1)) else []
    ensures Filter(Select(news, bucket, hhmm), In(bucket, PolicyBucket)) ==
            Take(Filter(news, In(bucket, PolicyBucket)), PolicyCap)
    ensures Filter(Select(news, bucket, hhmm), In(bucket, AiBucket)) ==
            Take(Filter(news, In(bucket, AiBucket)), AiCap)
  {
    SelectCore1Part(news, bucket, hhmm);
    SelectPolicyPart(news, bucket, hhmm);
    SelectAiPart(news, bucket, hhmm);
  }

  /** The "core one" part of a selection. */
  lemma SelectCore1Part<T>(news: seq<T>, bucket: T -> Bucket, hhmm: string)
    ensures Filter(Select(news, bucket, hhmm), In(bucket, Core1)) ==
            if hhmm in Core1Times then Filter(news, In(bucket, Core1)) else []
  {
    var pc, pp, pa := In(bucket, Core1), In(bucket, PolicyBucket), In(bucket, AiBucket);
    var core1 := if hhmm in Core1Times then Filter(news, pc) else [];
    var policy := Take(Filter(news, pp), PolicyCap);
    var ai := Take(Filter(news, pa), AiCap);
    SelectParts(news, bucket, hhmm);
    TakeFilter(news, pp, PolicyCap);
    TakeFilter(news, pa, AiCap);
    FilterConcat3(core1, policy, ai, pc);
    FilterAll(core1, pc);
    FilterNone(policy, pc);
    FilterNone(ai, pc);
  }

  /** The policy part of a selection. */
  lemma SelectPolicyPart<T>(news: seq<T>, bucket: T -> Bucket, hhmm: string)
    ensures Filter(Select(news, bucket, hhmm), In(bucket, PolicyBucket)) ==
            Take(Filter(news, In(bucket, PolicyBucket)), PolicyCap)
  {
    var pc, pp, pa := In(bucket, Core1), In(bucket, PolicyBucket), In(bucket, AiBucket);
    var core1 := if hhmm in Core1Times then Filter(news, pc) else [];
    var policy := Take(Filter(news, pp), PolicyCap);
    var ai := Take(Filter(news, pa), AiCap);
    SelectParts(news, bucket, hhmm);
    TakeFilter(news, pp, PolicyCap);
    TakeFilter(news, pa, AiCap);
    FilterConcat3(core1, policy, ai, pp);
    FilterNone(core1, pp);
    FilterAll(policy, pp);
    FilterNone(ai, pp);
  }

  /** The AI part of a selection. */
  lemma SelectAiPart<T>(news: seq<T>, bucket: T -> Bucket, hhmm: string)
    ensures Filter(Select(news, bucket, hhmm), In(bucket, AiBucket)) ==
            Take(Filter(news, In(bucket, AiBucket)), AiCap)
  {
    var pc, pp, pa := In(bucket, Core1), In(bucket, PolicyBucket), In(bucket, AiBucket);
    var core1 := if hhmm in Core1Times then Filter(news, pc) else [];
    var policy := Take(Filter(news, pp), PolicyCap);
    var ai := Take(Filter(news, pa), AiCap);
    SelectParts(news, bucket, hhmm);
    TakeFilter(news, pp, PolicyCap);
    TakeFilter(news, pa, AiCap);
    FilterConcat3(core1, policy, ai, pa);
    FilterNone(core1, pa);
    FilterNone(policy, pa);
    FilterAll(ai, pa);
  }

  /** Outside the two allowed times only tagged records are selected, at
      most thirteen of them. */
  lemma OffHoursSelectsOnlyTagged(news: seq<Item>, hhmm: string)
    requires hhmm !in Core1Times
    ensures |Select(news, BucketOf, hhmm)| <= PolicyCap + AiCap
    ensures forall i :: 0 <= i < |Select(news, BucketOf, hhmm)| ==>
              AiIndustryTag in Select(news, BucketOf, hhmm)[i].tags ||
              PolicyClassTag in Select(news, BucketOf, hhmm)[i].tags
  {
    var sel := Select(news, BucketOf, hhmm);
    var policy := Take(Filter(news, In(BucketOf, PolicyBucket)), PolicyCap);
    var ai := Take(Filter(news, In(BucketOf, AiBucket)), AiCap);
    assert sel == [] + policy + ai;
    forall i | 0 <= i < |sel|
      ensures AiIndustryTag in sel[i].tags || PolicyClassTag in sel[i].tags
    {
      if i < |policy| {
        assert sel[i] == Filter(news, In(BucketOf, PolicyBucket))[i];
        assert BucketOf(sel[i]) == PolicyBucket;
      } else {
        assert sel[i] == Filter(news, In(BucketOf, AiBucket))[i - |policy|];
        assert BucketOf(sel[i]) == AiBucket;
      }
    }
  }
}
