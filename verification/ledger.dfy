/** The seen-ledger of `state_store.py`: a map from de-duplication key to the
    time the key was last marked, with a retention window after which an
    entry is purged. Time is integer seconds, passed in as `now`. */
module SeenLedger {

  const SecondsPerDay: int := 86400

  /** Retention the store is constructed with by default. */
  const DefaultRetentionDays: int := 7

  datatype Ledger = Ledger(data: map<string, int>, retentionDays: int)
  {
    /** The retention window in seconds. */
    function Ttl(): int
    {
      retentionDays * SecondsPerDay
    }
  }

  /** What the state file gave when the store was constructed: nothing (no
      file), an error (unreadable or not JSON), or a key-to-time map. */
  datatype StateFile = Missing | Unreadable | Stored(data: map<string, int>)

  /** Construction: the stored map, or an empty map when the file is missing
      or cannot be read. Loading does not purge. */
  function Load(file: StateFile, retentionDays: int): (l: Ledger)
    ensures l.retentionDays == retentionDays
    ensures file.Stored? ==> l.data == file.data
    ensures !file.Stored? ==> l.data == map[]
  {
    match file
    case Stored(data) => Ledger(data, retentionDays)
    case _ => Ledger(map[], retentionDays)
  }

  /** `seen(key)`: membership in the in-memory map. */
  predicate Seen(l: Ledger, key: string)
  {
    key in l.data
  }

  /** Right after construction the store has seen exactly the keys of its
      file, however old their times: construction does not purge. */
  lemma SeenAfterLoad(file: StateFile, retentionDays: int, key: string)
    ensures Seen(Load(file, retentionDays), key) <==> file.Stored? && key in file.data
  {
  }

  /** `mark(key)` at time `now`. */
  function Mark(l: Ledger, key: string, now: int): (r: Ledger)
    ensures Seen(r, key) && r.data[key] == now
    ensures forall k :: k != key ==> (Seen(r, k) <==> Seen(l, k))
    ensures forall k :: k != key && k in l.data ==> k in r.data && r.data[k] == l.data[k]
    ensures r.retentionDays == l.retentionDays
  {
    l.(data := l.data[key := now])
  }

  /** An entry survives a purge at `now` while it is at most `Ttl()` seconds
      old; an entry exactly `Ttl()` seconds old survives. */
  predicate Live(l: Ledger, key: string, now: int)
    requires key in l.data
  {
    now - l.data[key] <= l.Ttl()
  }

  /** `_purge()` at time `now`. */
  function Purge(l: Ledger, now: int): (r: Ledger)
    ensures forall k :: Seen(r, k) <==> Seen(l, k) && Live(l, k, now)
    ensures forall k :: k in r.data ==> k in l.data && r.data[k] == l.data[k]
    ensures r.retentionDays == l.retentionDays
  {
    l.(data := map k | k in l.data && Live(l, k, now) :: l.data[k])
  }

  /** The in-memory ledger after `flush()` and the map it wrote to the file. */
  datatype Flushed = Flushed(ledger: Ledger, written: map<string, int>)

  /** `flush()` at time `now`: purge, then write the purged map. */
  function Flush(l: Ledger, now: int): (r: Flushed)
    ensures r.written == r.ledger.data
    ensures forall k :: Seen(r.ledger, k) <==> Seen(l, k) && Live(l, k, now)
    ensures forall k :: k in r.ledger.data ==> k in l.data && r.ledger.data[k] == l.data[k]
    ensures r.ledger.retentionDays == l.retentionDays
  {
    var p := Purge(l, now);
    Flushed(p, p.data)
  }

  /** Whatever `flush()` writes, a later construction reads back as the same
      ledger. */
  lemma FlushLoadRoundTrip(l: Ledger, now: int)
    ensures Load(Stored(Flush(l, now).written), l.retentionDays) == Flush(l, now).ledger
  {
  }

  /** An entry marked at `t` is still seen after a purge exactly one window
      later, and gone after a purge one second after that. */
  lemma RetentionBoundary(l: Ledger, key: string, t: int)
    ensures Seen(Purge(Mark(l, key, t), t + l.Ttl()), key)
    ensures !Seen(Purge(Mark(l, key, t), t + l.Ttl() + 1), key)
  {
    var m := Mark(l, key, t);
    assert Live(m, key, t + m.Ttl());
    assert !Live(m, key, t + m.Ttl() + 1);
  }

  /** Purging twice at the same time is purging once. */
  lemma PurgeIdempotent(l: Ledger, now: int)
    ensures Purge(Purge(l, now), now) == Purge(l, now)
  {
  }

  /** A later purge keeps no entry that an earlier one dropped. */
  lemma PurgeMonotone(l: Ledger, now: int, later: int)
    requires now <= later
    ensures Purge(l, later).data.Keys <= Purge(l, now).data.Keys
  {
  }

  /** Marking a key twice at the same time is marking it once. */
  lemma MarkIdempotent(l: Ledger, key: string, now: int)
    ensures Mark(Mark(l, key, now), key, now) == Mark(l, key, now)
  {
  }

  /** With a non-negative retention, a key marked at `now` survives a purge
      at `now`. */
  lemma MarkSurvivesPurge(l: Ledger, key: string, now: int)
    requires l.retentionDays >= 0
    ensures Seen(Purge(Mark(l, key, now), now), key)
  {
    var m := Mark(l, key, now);
    assert Live(m, key, now);
  }
}
