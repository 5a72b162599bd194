/** The pending queue of `pending_store.py`: an ordered list of records
    waiting for deep analysis, de-duplicated by a stable key when records are
    added, and purged of entries older than the retention window before every
    operation. Time is integer seconds, passed in as `now`. */
module PendingQueue {
  import opened Optional
  import opened Seqs
  import opened Strs
  import opened NewsItem

  const SecondsPerDay: int := 86400

  /** Retention the queue is constructed with by default. */
  const DefaultRetentionDays: int := 2

  /** How much of the stripped title and content the fallback key keeps. */
  const RawKeyPiece: nat := 50

  /** The key built from a record's stripped url, title and content: the
      url under `url:`, else the title under `title:`, else the first 50
      characters of the title and of the content under `raw:`. Its first
      character tells which of the three forms it has. */
  function KeyOf(url: string, title: string, content: string): (k: string)
    ensures |k| > 0
    ensures k[0] == if url != "" then 'u' else if title != "" then 't' else 'r'
  {
    if url != "" then "url:" + url
    else if title != "" then "title:" + title
    else "raw:" + Take(title, RawKeyPiece) + "|" + Take(content, RawKeyPiece)
  }

  /** `_stable_item_key(item)`: the key of the record's stripped fields,
      keyed by the url when it is not blank, else by the title when that is
      not blank, else by the content. */
  function StableKey(it: Item): (k: string)
    ensures |k| > 0
    ensures k[0] == if Strip(it.url) != "" then 'u' else if Strip(it.title) != "" then 't' else 'r'
  {
    KeyOf(Strip(it.url), Strip(it.title), Strip(it.content))
  }

  /** When two records' stripped fields make them the same record: equal
      non-blank urls; else both urls blank and equal non-blank titles; else
      urls and titles all blank and the contents agreeing on their first 50
      characters. */
  predicate SameParts(ua: string, ta: string, ca: string, ub: string, tb: string, cb: string)
  {
    if ua != "" then ub == ua
    else if ub != "" then false
    else if ta != "" then tb == ta
    else if tb != "" then false
    else Take(ca, RawKeyPiece) == Take(cb, RawKeyPiece)
  }

  /** When the queue treats two records as the same. */
  predicate SameRecord(a: Item, b: Item)
  {
    SameParts(Strip(a.url), Strip(a.title), Strip(a.content), Strip(b.url), Strip(b.title), Strip(b.content))
  }

  /** Keys that agree after the same prefix agree on what follows it. */
  lemma DropTagged(tag: string, x: string, y: string)
    requires tag + x == tag + y
    ensures x == y
  {
    assert x == (tag + x)[|tag|..];
    assert y == (tag + y)[|tag|..];
  }

  /** Two field triples give the same key exactly when they make the same
      record. */
  lemma KeyOfIdentifies(ua: string, ta: string, ca: string, ub: string, tb: string, cb: string)
    ensures KeyOf(ua, ta, ca) == KeyOf(ub, tb, cb) <==> SameParts(ua, ta, ca, ub, tb, cb)
  {
    var ka, kb := KeyOf(ua, ta, ca), KeyOf(ub, tb, cb);
    if ua != "" && ub != "" {
      if ka == kb { DropTagged("url:", ua, ub); }
    } else if ua == "" && ub == "" && ta != "" && tb != "" {
      if ka == kb { DropTagged("title:", ta, tb); }
    } else if ua == "" && ub == "" && ta == "" && tb == "" {
      var pa, pb := Take(ca, RawKeyPiece), Take(cb, RawKeyPiece);
      assert ka == "raw:|" + pa && kb == "raw:|" + pb;
      if ka == kb { DropTagged("raw:|", pa, pb); }
    } else {
      assert ka[0] != kb[0];
    }
  }

  /** Two records get the same stable key exactly when the queue treats them
      as the same record; in particular a record with a url is keyed by the
      url alone, whatever its title and content. */
  lemma StableKeyIdentifies(a: Item, b: Item)
    ensures StableKey(a) == StableKey(b) <==> SameRecord(a, b)
  {
    KeyOfIdentifies(Strip(a.url), Strip(a.title), Strip(a.content), Strip(b.url), Strip(b.title), Strip(b.content));
  }

  /** A queued record and the time it was queued (`_queued_at`), `None` when
      the field is missing or not a number. */
  datatype Entry = Entry(item: Item, queuedAt: Option<int>)

  datatype Queue = Queue(entries: seq<Entry>, retentionDays: int)
  {
    /** The retention window in seconds. */
    function Ttl(): int
    {
      retentionDays * SecondsPerDay
    }
  }

  /** The stable key of a queued entry's record. */
  function EntryKey(e: Entry): string
  {
    StableKey(e.item)
  }

  /** An entry survives a purge at `now` while it is at most `ttl` seconds
      old; an entry without a time counts as queued at `now`. */
  predicate IsLive(e: Entry, ttl: int, now: int)
  {
    now - e.queuedAt.GetOr(now) <= ttl
  }

  /** Liveness as a filter predicate. */
  function LiveAt(ttl: int, now: int): Entry -> bool
  {
    e => IsLive(e, ttl, now)
  }

  /** `_purge()` at time `now`: keeps, in order, exactly the live entries. */
  function Purge(q: Queue, now: int): (r: Queue)
    ensures IsSubseq(r.entries, q.entries)
    ensures forall i :: 0 <= i < |r.entries| ==> IsLive(r.entries[i], q.Ttl(), now)
    ensures forall i :: 0 <= i < |q.entries| && IsLive(q.entries[i], q.Ttl(), now) ==> q.entries[i] in r.entries
    ensures |r.entries| == CountIf(q.entries, LiveAt(q.Ttl(), now))
    ensures r.retentionDays == q.retentionDays
  {
    FilterIsSubseq(q.entries, LiveAt(q.Ttl(), now));
    FilterLength(q.entries, LiveAt(q.Ttl(), now));
    q.(entries := Filter(q.entries, LiveAt(q.Ttl(), now)))
  }

  /** Purging a queue whose entries are all live changes nothing. */
  lemma PurgeAllLive(q: Queue, now: int)
    requires forall i :: 0 <= i < |q.entries| ==> IsLive(q.entries[i], q.Ttl(), now)
    ensures Purge(q, now) == q
  {
    FilterAll(q.entries, LiveAt(q.Ttl(), now));
  }

  /** Purging twice at the same time is purging once. */
  lemma PurgeIdempotent(q: Queue, now: int)
    ensures Purge(Purge(q, now), now) == Purge(q, now)
  {
    PurgeAllLive(Purge(q, now), now);
  }

  /** The records of `items`, each stamped as queued at `now`. */
  function Stamp(items: seq<Item>, now: int): (r: seq<Entry>)
    ensures |r| == |items|
    ensures forall i :: 0 <= i < |r| ==> r[i] == Entry(items[i], Some(now))
  {
    seq(|items|, i requires 0 <= i < |items| => Entry(items[i], Some(now)))
  }

  /** The records of `entries`, without their times. */
  function Records(entries: seq<Entry>): (r: seq<Item>)
    ensures |r| == |entries|
    ensures forall i :: 0 <= i < |r| ==> r[i] == entries[i].item
  {
    seq(|entries|, i requires 0 <= i < |entries| => entries[i].item)
  }

  /** Stamping changes no record's key. */
  lemma StampKeys(items: seq<Item>, now: int)
    ensures Keys(Stamp(items, now), EntryKey) == Keys(items, StableKey)
    ensures DistinctBy(items, StableKey) ==> DistinctBy(Stamp(items, now), EntryKey)
  {
    var s := Stamp(items, now);
    forall i | 0 <= i < |s| ensures EntryKey(s[i]) in Keys(items, StableKey) {
      assert EntryKey(s[i]) == StableKey(items[i]);
    }
    forall i | 0 <= i < |items| ensures StableKey(items[i]) in Keys(s, EntryKey) {
      assert EntryKey(s[i]) == StableKey(items[i]);
    }
  }

  /** The queue after `add_many`, the count it returned, and the list it
      wrote to the file (`None` when it wrote nothing). */
  datatype Added = Added(queue: Queue, added: nat, written: Option<seq<Entry>>)

  /** `add_many(items)` at time `now`: purge, then append, stamped with
      `now`, each incoming record whose key is neither queued nor the key of
      an earlier incoming record; write the queue only if something was
      appended. */
  function AddMany(q: Queue, items: seq<Item>, now: int): (r: Added)
    ensures var p := Purge(q, now).entries;
      && |r.queue.entries| == |p| + r.added
      && r.queue.entries[..|p|] == p
      && (forall i :: |p| <= i < |r.queue.entries| ==> r.queue.entries[i].queuedAt == Some(now))
      && Records(r.queue.entries[|p|..]) == Firsts(items, StableKey, Keys(p, EntryKey))
    ensures r.queue.retentionDays == q.retentionDays
    ensures r.written == if r.added > 0 then Some(r.queue.entries) else None
  {
    var p := Purge(q, now).entries;
    var accepted := DedupBy(items, StableKey, Keys(p, EntryKey));
    var entries := p + Stamp(accepted, now);
    AppendStamped(p, accepted, now);
    DedupByIsFirsts(items, StableKey, Keys(p, EntryKey));
    Added(Queue(entries, q.retentionDays), |accepted|,
          if |accepted| > 0 then Some(entries) else None)
  }

  /** Appending stamped records keeps the old entries as a prefix and puts
      exactly those records, stamped `now`, after them. */
  lemma AppendStamped(p: seq<Entry>, items: seq<Item>, now: int)
    ensures var e := p + Stamp(items, now);
      && |e| == |p| + |items|
      && e[..|p|] == p
      && (forall i :: |p| <= i < |e| ==> e[i].queuedAt == Some(now))
      && Records(e[|p|..]) == items
  {
    var e := p + Stamp(items, now);
    assert e[|p|..] == Stamp(items, now);
  }

  /** If no two queued entries share a key before `add_many`, none do after. */
  lemma AddManyKeepsKeysDistinct(q: Queue, items: seq<Item>, now: int)
    requires DistinctBy(q.entries, EntryKey)
    ensures DistinctBy(AddMany(q, items, now).queue.entries, EntryKey)
  {
    var p := Purge(q, now).entries;
    var accepted := DedupBy(items, StableKey, Keys(p, EntryKey));
    SubseqDistinct(p, q.entries, EntryKey);
    StampKeys(accepted, now);
    DistinctConcat(p, Stamp(accepted, now), EntryKey);
  }

  /** Adding the same batch again at the same time adds nothing and leaves
      the queue as it is (given a non-negative retention, so that entries
      stamped `now` survive a purge at `now`). */
  lemma AddManyTwice(q: Queue, items: seq<Item>, now: int)
    requires q.retentionDays >= 0
    ensures var q1 := AddMany(q, items, now).queue;
      AddMany(q1, items, now).added == 0 && AddMany(q1, items, now).queue == q1
  {
    var q1 := AddMany(q, items, now).queue;
    AddedAreLive(q, items, now);
    AddedKeysAreKnown(q, items, now);
    AddNothingNew(q1, items, now);
  }

  /** Adding records whose keys are all queued, to a queue with nothing to
      purge, adds nothing and changes nothing. */
  lemma AddNothingNew(q: Queue, items: seq<Item>, now: int)
    requires Purge(q, now) == q
    requires Keys(items, StableKey) <= Keys(q.entries, EntryKey)
    ensures AddMany(q, items, now).added == 0 && AddMany(q, items, now).queue == q
  {
    DedupByAllKnown(items, StableKey, Keys(q.entries, EntryKey));
    assert q.entries + Stamp([], now) == q.entries;
  }

  /** With a non-negative retention, every entry of the queue `add_many`
      leaves is live at the time of the call. */
  lemma AddedAreLive(q: Queue, items: seq<Item>, now: int)
    requires q.retentionDays >= 0
    ensures Purge(AddMany(q, items, now).queue, now) == AddMany(q, items, now).queue
  {
    var p := Purge(q, now).entries;
    var q1 := AddMany(q, items, now).queue;
    LiveAfterAppend(p, q1.entries, q.Ttl(), now);
    PurgeAllLive(q1, now);
  }

  /** Entries stamped `now` after live entries leave a list that is live at
      `now`, for a non-negative window. */
  lemma LiveAfterAppend(p: seq<Entry>, e: seq<Entry>, ttl: int, now: int)
    requires ttl >= 0
    requires |p| <= |e| && e[..|p|] == p
    requires forall i :: 0 <= i < |p| ==> IsLive(p[i], ttl, now)
    requires forall i :: |p| <= i < |e| ==> e[i].queuedAt == Some(now)
    ensures forall i :: 0 <= i < |e| ==> IsLive(e[i], ttl, now)
  {
    forall i | 0 <= i < |e| ensures IsLive(e[i], ttl, now) {
      if i < |p| {
        assert e[..|p|][i] == e[i];
      }
    }
  }


  /** After `add_many`, every incoming record's key is a queued key. */
  lemma AddedKeysAreKnown(q: Queue, items: seq<Item>, now: int)
    ensures Keys(items, StableKey) <= Keys(AddMany(q, items, now).queue.entries, EntryKey)
  {
    var p := Purge(q, now).entries;
    var accepted := DedupBy(items, StableKey, Keys(p, EntryKey));
    var q1 := AddMany(q, items, now).queue;
    assert q1.entries == p + Stamp(accepted, now);
    KeysConcat(p, Stamp(accepted, now), EntryKey);
    StampKeys(accepted, now);
  }

  /** The queue after a pop, the entries popped, and the list written to the
      file (`None` when nothing was written). */
  datatype Popped = Popped(queue: Queue, popped: seq<Entry>, written: Option<seq<Entry>>)

  /** `pop_many(limit)` at time `now`: purge; a non-positive limit pops
      nothing; otherwise pop the first `limit` entries (all of them when
      fewer) and write the rest. */
  function PopMany(q: Queue, limit: int, now: int): (r: Popped)
    ensures var p := Purge(q, now).entries;
      && r.popped + r.queue.entries == p
      && (limit <= 0 ==> r.popped == [] && r.written == None)
      && (limit > 0 ==> |r.popped| == (if limit < |p| then limit else |p|)
                        && r.written == Some(r.queue.entries))
    ensures r.queue.retentionDays == q.retentionDays
  {
    PopFront(Purge(q, now), limit)
  }

  /** The pop itself, on an already purged queue. */
  function PopFront(p: Queue, limit: int): (r: Popped)
    ensures r.popped + r.queue.entries == p.entries
    ensures limit <= 0 ==> r.popped == [] && r.written == None
    ensures limit > 0 ==> |r.popped| == (if limit < |p.entries| then limit else |p.entries|)
                          && r.written == Some(r.queue.entries)
    ensures r.queue.retentionDays == p.retentionDays
  {
    if limit <= 0 then Popped(p, [], None)
    else
      var n := if limit < |p.entries| then limit else |p.entries|;
      assert p.entries[..n] + p.entries[n..] == p.entries;
      Popped(p.(entries := p.entries[n..]), p.entries[..n], Some(p.entries[n..]))
  }

  /** `pop_all()` at time `now`: purge, pop every entry, in order, and
      write the empty queue. */
  function PopAll(q: Queue, now: int): (r: Popped)
    ensures r.queue.entries == [] && r.written == Some([])
    ensures r.queue.retentionDays == q.retentionDays
    ensures r.popped == Purge(q, now).entries
    ensures forall i :: 0 <= i < |q.entries| && IsLive(q.entries[i], q.Ttl(), now) ==> q.entries[i] in r.popped
  {
    var p := Purge(q, now);
    Popped(p.(entries := []), p.entries, Some([]))
  }

  /** `pop_all()` pops what a `pop_many` with a limit covering the whole
      queue pops, and leaves the same (empty) queue. */
  lemma PopAllIsPopManyEverything(q: Queue, limit: int, now: int)
    requires limit >= |q.entries| && limit > 0
    ensures PopAll(q, now).popped == PopMany(q, limit, now).popped
    ensures PopAll(q, now).queue == PopMany(q, limit, now).queue
  {
    FilterIsSubseq(q.entries, LiveAt(q.Ttl(), now));
  }

  /** Draining: a `pop_many(n)` followed at the same time by a `pop_many`
      covering what is left returns the whole purged queue, in order, with
      nothing lost and nothing repeated. */
  lemma PopManyDrains(q: Queue, n: int, m: int, now: int)
    requires n > 0
    requires m >= |PopMany(q, n, now).queue.entries| && m > 0
    ensures var first := PopMany(q, n, now);
      first.popped + PopMany(first.queue, m, now).popped == Purge(q, now).entries
      && PopMany(first.queue, m, now).queue.entries == []
  {
    var p := Purge(q, now).entries;
    var first := PopMany(q, n, now);
    var rest := first.queue;
    assert Purge(rest, now) == rest by {
      forall i | 0 <= i < |rest.entries| ensures IsLive(rest.entries[i], rest.Ttl(), now) {
        assert rest.entries[i] == p[|first.popped| + i];
      }
      PurgeAllLive(rest, now);
    }
    var second := PopMany(rest, m, now);
    assert second.popped + second.queue.entries == rest.entries;
    assert |second.popped| == |rest.entries|;
    assert second.queue.entries == [];
    assert second.popped == rest.entries;
  }

  /** What the queue file gave when the queue was constructed: nothing, an
      error, JSON that is not a list, or a list of entries. */
  datatype QueueFile = Missing | Unreadable | NotAList | Stored(entries: seq<Entry>)

  /** Construction: the stored list, or the empty queue otherwise. */
  function Load(file: QueueFile, retentionDays: int): (q: Queue)
    ensures q.retentionDays == retentionDays
    ensures file.Stored? ==> q.entries == file.entries
    ensures !file.Stored? ==> q.entries == []
  {
    match file
    case Stored(entries) => Queue(entries, retentionDays)
    case _ => Queue([], retentionDays)
  }

  /** Whatever `add_many` writes, a later construction reads back as the
      queue it left in memory. */
  lemma AddManyLoadRoundTrip(q: Queue, items: seq<Item>, now: int)
    ensures AddMany(q, items, now).written.Some? ==>
      Load(Stored(AddMany(q, items, now).written.value), q.retentionDays) == AddMany(q, items, now).queue
  {
  }
}
