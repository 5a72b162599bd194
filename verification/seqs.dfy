/** Sequence helpers shared by the ingestion model: order-preserving
    subsequences, filtering, Python-style prefix slicing, and the
    "keep the first item of each key" de-duplication that the classifier,
    the orchestrator's final pass and the pending queue all perform. */
module Seqs {
  import opened Optional

  /** `sub` is obtained from `s` by deleting elements, keeping the order of
      the rest. */
  predicate IsSubseq<T(==)>(sub: seq<T>, s: seq<T>)
    decreases |s|
  {
    if |sub| == 0 then true
    else if |s| == 0 then false
    else (sub[0] == s[0] && IsSubseq(sub[1..], s[1..])) || IsSubseq(sub, s[1..])
  }

  /** Python's `s[:n]` for a non-negative `n`. */
  function Take<T>(s: seq<T>, n: nat): (r: seq<T>)
    ensures |r| == if n < |s| then n else |s|
    ensures r <= s
  {
    if n < |s| then s[..n] else s
  }

  /** The elements of `s` that satisfy `p`, in their original order. */
  function Filter<T>(s: seq<T>, p: T -> bool): (r: seq<T>)
    ensures |r| <= |s|
    ensures forall i :: 0 <= i < |r| ==> p(r[i]) && r[i] in s
    ensures forall i :: 0 <= i < |s| && p(s[i]) ==> s[i] in r
  {
    if |s| == 0 then []
    else (if p(s[0]) then [s[0]] else []) + Filter(s[1..], p)
  }

  /** A one-element filter keeps the element exactly when it satisfies `p`. */
  lemma FilterSingleton<T>(x: T, p: T -> bool)
    ensures Filter([x], p) == if p(x) then [x] else []
  {
    assert [x][1..] == [];
  }

  /** How many elements of `s` satisfy `p`. */
  function CountIf<T>(s: seq<T>, p: T -> bool): nat
  {
    if |s| == 0 then 0
    else (if p(s[0]) then 1 else 0) + CountIf(s[1..], p)
  }

  /** The set of keys of the elements of `s`. */
  function Keys<T, K(==)>(s: seq<T>, key: T -> K): set<K>
  {
    set i | 0 <= i < |s| :: key(s[i])
  }

  /** No two elements of `s` share a key. */
  predicate DistinctBy<T, K(==)>(s: seq<T>, key: T -> K)
  {
    forall i, j :: 0 <= i < j < |s| ==> key(s[i]) != key(s[j])
  }

  /** Keeps, in order, the first element of each key, skipping every key
      already in `seen`: the loop `if key in seen: continue; seen.add(key);
      out.append(x)` that the source writes several times. */
  function DedupBy<T, K(==)>(xs: seq<T>, key: T -> K, seen: set<K>): (r: seq<T>)
    ensures |r| <= |xs|
    ensures forall i :: 0 <= i < |r| ==> r[i] in xs
    ensures Keys(r, key) !! seen
    ensures DistinctBy(r, key)
    ensures Keys(xs, key) <= seen + Keys(r, key)
    decreases |xs|
  {
    if |xs| == 0 then []
    else if key(xs[0]) in seen then
      var rest := DedupBy(xs[1..], key, seen);
      assert Keys(xs, key) <= Keys(xs[1..], key) + {key(xs[0])} by {
        forall i | 0 <= i < |xs| ensures key(xs[i]) in Keys(xs[1..], key) + {key(xs[0])} {
          if i > 0 { assert xs[i] == xs[1..][i - 1]; }
        }
      }
      rest
    else
      var rest := DedupBy(xs[1..], key, seen + {key(xs[0])});
      var r := [xs[0]] + rest;
      assert Keys(r, key) == Keys(rest, key) + {key(xs[0])} by {
        forall i | 0 <= i < |r| ensures key(r[i]) in Keys(rest, key) + {key(xs[0])} {
          if i > 0 { assert r[i] == rest[i - 1]; }
        }
        forall k | k in Keys(rest, key) ensures k in Keys(r, key) {
          var i :| 0 <= i < |rest| && key(rest[i]) == k;
          assert r[i + 1] == rest[i];
        }
        assert key(r[0]) in Keys(r, key);
      }
      assert Keys(xs, key) <= Keys(xs[1..], key) + {key(xs[0])} by {
        forall i | 0 <= i < |xs| ensures key(xs[i]) in Keys(xs[1..], key) + {key(xs[0])} {
          if i > 0 { assert xs[i] == xs[1..][i - 1]; }
        }
      }
      assert DistinctBy(r, key) by {
        forall i, j | 0 <= i < j < |r| ensures key(r[i]) != key(r[j]) {
          if i == 0 {
            assert r[j] == rest[j - 1];
            assert key(rest[j - 1]) in Keys(rest, key);
          } else {
            assert r[i] == rest[i - 1] && r[j] == rest[j - 1];
          }
        }
      }
      r
  }

  /** Reference reading of "first occurrence": position `i` of `xs` is kept
      when its key is not in `seen` and no earlier element has the same key. */
  predicate IsFirst<T, K(==)>(xs: seq<T>, i: nat, key: T -> K, seen: set<K>)
    requires i < |xs|
  {
    key(xs[i]) !in seen && forall j :: 0 <= j < i ==> key(xs[j]) != key(xs[i])
  }

  /** The elements at the positions `i >= k` that satisfy `IsFirst`, in order. */
  function FirstsFrom<T, K(==)>(xs: seq<T>, k: nat, key: T -> K, seen: set<K>): seq<T>
    requires k <= |xs|
    decreases |xs| - k
  {
    if k == |xs| then []
    else (if IsFirst(xs, k, key, seen) then [xs[k]] else []) + FirstsFrom(xs, k + 1, key, seen)
  }

  /** Every first occurrence of `xs`, in order. */
  function Firsts<T, K(==)>(xs: seq<T>, key: T -> K, seen: set<K>): seq<T>
  {
    FirstsFrom(xs, 0, key, seen)
  }

  /** One more element adds its key. */
  lemma KeysSnoc<T, K>(xs: seq<T>, k: nat, key: T -> K)
    requires k < |xs|
    ensures Keys(xs[..k + 1], key) == Keys(xs[..k], key) + {key(xs[k])}
  {
    var a, b := xs[..k + 1], xs[..k];
    forall i | 0 <= i < |a| ensures key(a[i]) in Keys(b, key) + {key(xs[k])} {
      if i < k { assert a[i] == b[i]; }
    }
    forall i | 0 <= i < |b| ensures key(b[i]) in Keys(a, key) {
      assert a[i] == b[i];
    }
    assert key(a[k]) in Keys(a, key);
  }

  /** De-duplicating a suffix with the prefix's keys as seen keeps the
      first occurrences from position `k` on. */
  lemma {:induction false} DedupBySuffix<T, K>(xs: seq<T>, k: nat, key: T -> K, seen: set<K>)
    requires k <= |xs|
    ensures DedupBy(xs[k..], key, seen + Keys(xs[..k], key)) == FirstsFrom(xs, k, key, seen)
    decreases |xs| - k
  {
    if k < |xs| {
      var s := seen + Keys(xs[..k], key);
      var tail := xs[k..];
      assert tail[0] == xs[k] && tail[1..] == xs[k + 1..];
      KeysSnoc(xs, k, key);
      assert IsFirst(xs, k, key, seen) <==> key(xs[k]) !in s by {
        if key(xs[k]) in Keys(xs[..k], key) {
          var j :| 0 <= j < k && key(xs[..k][j]) == key(xs[k]);
          assert xs[..k][j] == xs[j];
        }
        if exists j :: 0 <= j < k && key(xs[j]) == key(xs[k]) {
          var j :| 0 <= j < k && key(xs[j]) == key(xs[k]);
          assert xs[..k][j] == xs[j];
        }
      }
      DedupBySuffix(xs, k + 1, key, seen);
      if key(xs[k]) in s {
        assert seen + Keys(xs[..k + 1], key) == s;
      } else {
        assert seen + Keys(xs[..k + 1], key) == s + {key(xs[k])};
      }
    }
  }

  /** `DedupBy` keeps exactly the first occurrences, in order. */
  lemma DedupByIsFirsts<T, K>(xs: seq<T>, key: T -> K, seen: set<K>)
    ensures DedupBy(xs, key, seen) == Firsts(xs, key, seen)
  {
    DedupBySuffix(xs, 0, key, seen);
    assert xs[0..] == xs;
    assert seen + Keys(xs[..0], key) == seen;
  }

  /** `DedupBy` drops elements but never reorders them. */
  lemma {:induction false} DedupByIsSubseq<T, K>(xs: seq<T>, key: T -> K, seen: set<K>)
    ensures IsSubseq(DedupBy(xs, key, seen), xs)
    decreases |xs|
  {
    if |xs| > 0 {
      if key(xs[0]) in seen {
        DedupByIsSubseq(xs[1..], key, seen);
        SubseqDropHead(DedupBy(xs[1..], key, seen), xs);
      } else {
        DedupByIsSubseq(xs[1..], key, seen + {key(xs[0])});
        var r := DedupBy(xs, key, seen);
        assert r[0] == xs[0] && r[1..] == DedupBy(xs[1..], key, seen + {key(xs[0])});
      }
    }
  }

  /** A sequence whose keys are already distinct and unseen is left as it is. */
  lemma {:induction false} DedupByKeepsDistinct<T, K>(xs: seq<T>, key: T -> K, seen: set<K>)
    requires DistinctBy(xs, key)
    requires Keys(xs, key) !! seen
    ensures DedupBy(xs, key, seen) == xs
    decreases |xs|
  {
    if |xs| > 0 {
      assert key(xs[0]) in Keys(xs, key);
      var tail := xs[1..];
      assert DistinctBy(tail, key) by {
        forall i, j | 0 <= i < j < |tail| ensures key(tail[i]) != key(tail[j]) {
          assert tail[i] == xs[i + 1] && tail[j] == xs[j + 1];
        }
      }
      assert Keys(tail, key) !! seen + {key(xs[0])} by {
        forall i | 0 <= i < |tail| ensures key(tail[i]) !in seen + {key(xs[0])} {
          assert tail[i] == xs[i + 1];
          assert key(xs[i + 1]) in Keys(xs, key);
        }
      }
      DedupByKeepsDistinct(tail, key, seen + {key(xs[0])});
    }
  }

  /** De-duplicating twice is the same as de-duplicating once. */
  lemma DedupByIdempotent<T, K>(xs: seq<T>, key: T -> K)
    ensures DedupBy(DedupBy(xs, key, {}), key, {}) == DedupBy(xs, key, {})
  {
    DedupByKeepsDistinct(DedupBy(xs, key, {}), key, {});
  }

  /** Nothing survives when every key is already seen. */
  lemma {:induction false} DedupByAllKnown<T, K>(xs: seq<T>, key: T -> K, seen: set<K>)
    requires Keys(xs, key) <= seen
    ensures DedupBy(xs, key, seen) == []
    decreases |xs|
  {
    if |xs| > 0 {
      assert key(xs[0]) in Keys(xs, key);
      assert Keys(xs[1..], key) <= Keys(xs, key) by {
        forall i | 0 <= i < |xs[1..]| ensures key(xs[1..][i]) in Keys(xs, key) {
          assert xs[1..][i] == xs[i + 1];
        }
      }
      DedupByAllKnown(xs[1..], key, seen);
    }
  }

  /** When every element is `x`, only the first survives. */
  lemma {:induction false} DedupByConstant<T, K>(xs: seq<T>, x: T, key: T -> K, seen: set<K>)
    requires |xs| > 0
    requires forall i :: 0 <= i < |xs| ==> xs[i] == x
    requires key(x) !in seen
    ensures DedupBy(xs, key, seen) == [x]
  {
    DedupByAllSeen(xs[1..], x, key, seen + {key(x)});
  }

  /** Copies of one element whose key is seen are all dropped. */
  lemma {:induction false} DedupByAllSeen<T, K>(xs: seq<T>, x: T, key: T -> K, seen: set<K>)
    requires forall i :: 0 <= i < |xs| ==> xs[i] == x
    requires key(x) in seen
    ensures DedupBy(xs, key, seen) == []
    decreases |xs|
  {
    if |xs| > 0 {
      DedupByAllSeen(xs[1..], x, key, seen);
    }
  }

  /** A subsequence of the tail is one of the whole. */
  lemma SubseqDropHead<T>(sub: seq<T>, s: seq<T>)
    requires |s| > 0
    requires IsSubseq(sub, s[1..])
    ensures IsSubseq(sub, s)
  {
  }

  /** Every element of a subsequence is an element of the whole. */
  lemma {:induction false} SubseqElements<T>(sub: seq<T>, s: seq<T>)
    requires IsSubseq(sub, s)
    ensures forall i :: 0 <= i < |sub| ==> sub[i] in s
    decreases |s|
  {
    if |sub| > 0 {
      if sub[0] == s[0] && IsSubseq(sub[1..], s[1..]) {
        SubseqElements(sub[1..], s[1..]);
        forall i | 0 <= i < |sub| ensures sub[i] in s {
          if i > 0 { assert sub[i] == sub[1..][i - 1]; }
        }
      } else {
        SubseqElements(sub, s[1..]);
      }
    }
  }

  /** A subsequence counts no more elements of any kind than the whole. */
  lemma {:induction false} SubseqCount<T>(sub: seq<T>, s: seq<T>, p: T -> bool)
    requires IsSubseq(sub, s)
    ensures CountIf(sub, p) <= CountIf(s, p)
    decreases |s|
  {
    if |sub| > 0 {
      if sub[0] == s[0] && IsSubseq(sub[1..], s[1..]) {
        SubseqCount(sub[1..], s[1..], p);
      } else {
        SubseqCount(sub, s[1..], p);
      }
    }
  }

  /** Keys that are distinct in the whole stay distinct in a subsequence. */
  lemma {:induction false} SubseqDistinct<T, K>(sub: seq<T>, s: seq<T>, key: T -> K)
    requires IsSubseq(sub, s)
    requires DistinctBy(s, key)
    ensures DistinctBy(sub, key)
    decreases |s|
  {
    if |sub| > 0 {
      var tail := s[1..];
      assert DistinctBy(tail, key) by {
        forall i, j | 0 <= i < j < |tail| ensures key(tail[i]) != key(tail[j]) {
          assert tail[i] == s[i + 1] && tail[j] == s[j + 1];
        }
      }
      if sub[0] == s[0] && IsSubseq(sub[1..], tail) {
        SubseqDistinct(sub[1..], tail, key);
        SubseqElements(sub[1..], tail);
        forall i, j | 0 <= i < j < |sub| ensures key(sub[i]) != key(sub[j]) {
          assert sub[j] == sub[1..][j - 1];
          if i == 0 {
            assert sub[j] in tail;
            var m :| 0 <= m < |tail| && tail[m] == sub[j];
            assert s[m + 1] == sub[j];
          } else {
            assert sub[i] == sub[1..][i - 1];
          }
        }
      } else {
        SubseqDistinct(sub, tail, key);
      }
    }
  }

  /** Filtering a concatenation filters each part. */
  lemma {:induction false} FilterConcat<T>(a: seq<T>, b: seq<T>, p: T -> bool)
    ensures Filter(a + b, p) == Filter(a, p) + Filter(b, p)
    decreases |a|
  {
    if |a| > 0 {
      assert (a + b)[0] == a[0] && (a + b)[1..] == a[1..] + b;
      FilterConcat(a[1..], b, p);
    } else {
      assert a + b == b;
    }
  }

  /** Filtering keeps the order of the kept elements. */
  lemma {:induction false} FilterIsSubseq<T>(s: seq<T>, p: T -> bool)
    ensures IsSubseq(Filter(s, p), s)
    decreases |s|
  {
    if |s| > 0 {
      FilterIsSubseq(s[1..], p);
      if p(s[0]) {
        var r := Filter(s, p);
        assert r[0] == s[0] && r[1..] == Filter(s[1..], p);
      } else {
        assert Filter(s, p) == Filter(s[1..], p);
        SubseqDropHead(Filter(s, p), s);
      }
    }
  }

  /** Nothing passes a filter no element satisfies. */
  lemma {:induction false} FilterNone<T>(s: seq<T>, p: T -> bool)
    requires forall i :: 0 <= i < |s| ==> !p(s[i])
    ensures Filter(s, p) == []
    decreases |s|
  {
    if |s| > 0 {
      FilterNone(s[1..], p);
    }
  }

  /** A filter every element passes keeps everything. */
  lemma {:induction false} FilterAll<T>(s: seq<T>, p: T -> bool)
    requires forall i :: 0 <= i < |s| ==> p(s[i])
    ensures Filter(s, p) == s
    decreases |s|
  {
    if |s| > 0 {
      FilterAll(s[1..], p);
    }
  }

  /** The keys of a concatenation. */
  lemma KeysConcat<T, K>(a: seq<T>, b: seq<T>, key: T -> K)
    ensures Keys(a + b, key) == Keys(a, key) + Keys(b, key)
  {
    var ab := a + b;
    forall i | 0 <= i < |ab| ensures key(ab[i]) in Keys(a, key) + Keys(b, key) {
      if i < |a| { assert ab[i] == a[i]; } else { assert ab[i] == b[i - |a|]; }
    }
    forall i | 0 <= i < |a| ensures key(a[i]) in Keys(ab, key) {
      assert ab[i] == a[i];
    }
    forall i | 0 <= i < |b| ensures key(b[i]) in Keys(ab, key) {
      assert ab[|a| + i] == b[i];
    }
  }

  /** Two key-distinct sequences with disjoint key sets concatenate to a
      key-distinct sequence. */
  lemma DistinctConcat<T, K>(a: seq<T>, b: seq<T>, key: T -> K)
    requires DistinctBy(a, key) && DistinctBy(b, key)
    requires Keys(a, key) !! Keys(b, key)
    ensures DistinctBy(a + b, key)
  {
    var ab := a + b;
    forall i, j | 0 <= i < j < |ab| ensures key(ab[i]) != key(ab[j]) {
      if j < |a| {
        assert ab[i] == a[i] && ab[j] == a[j];
      } else if i >= |a| {
        assert ab[i] == b[i - |a|] && ab[j] == b[j - |a|];
      } else {
        assert ab[i] == a[i] && ab[j] == b[j - |a|];
        assert key(a[i]) in Keys(a, key) && key(b[j - |a|]) in Keys(b, key);
      }
    }
  }

  /** The filter keeps as many elements as the predicate counts. */
  lemma {:induction false} FilterLength<T>(s: seq<T>, p: T -> bool)
    ensures |Filter(s, p)| == CountIf(s, p)
    decreases |s|
  {
    if |s| > 0 {
      FilterLength(s[1..], p);
    }
  }

  /** Distinct under a coarser key means distinct under a finer one. */
  lemma DistinctByFiner<T, K, L>(s: seq<T>, fine: T -> K, coarse: T -> L)
    requires DistinctBy(s, coarse)
    requires forall x, y :: fine(x) == fine(y) ==> coarse(x) == coarse(y)
    ensures DistinctBy(s, fine)
  {
    forall i, j | 0 <= i < j < |s| ensures fine(s[i]) != fine(s[j]) {
      assert coarse(s[i]) != coarse(s[j]);
    }
  }

  /** Concatenation is associative; stated once so that proofs can cite it. */
  lemma ConcatAssoc<T>(a: seq<T>, b: seq<T>, c: seq<T>)
    ensures a + (b + c) == (a + b) + c
  {
  }

  /** The keys of a non-empty sequence: the head's and the tail's. */
  lemma KeysCons<T, K>(xs: seq<T>, key: T -> K)
    requires |xs| > 0
    ensures Keys(xs, key) == {key(xs[0])} + Keys(xs[1..], key)
  {
    assert xs == [xs[0]] + xs[1..];
    KeysConcat([xs[0]], xs[1..], key);
    assert key([xs[0]][0]) in Keys([xs[0]], key);
  }

  /** De-duplication keeps the key set: together with `seen`, the kept
      elements have exactly the keys the input had. */
  lemma DedupByKeys<T, K>(xs: seq<T>, key: T -> K, seen: set<K>)
    ensures seen + Keys(DedupBy(xs, key, seen), key) == seen + Keys(xs, key)
  {
    var r := DedupBy(xs, key, seen);
    forall k | k in Keys(r, key) ensures k in Keys(xs, key) {
      var i :| 0 <= i < |r| && key(r[i]) == k;
      var j :| 0 <= j < |xs| && xs[j] == r[i];
      assert key(xs[j]) in Keys(xs, key);
    }
  }

  /** De-duplicating a concatenation is de-duplicating the first part, then
      the second part against every key the first part had. */
  lemma {:induction false} DedupByConcat<T, K>(a: seq<T>, b: seq<T>, key: T -> K, seen: set<K>)
    ensures DedupBy(a + b, key, seen) == DedupBy(a, key, seen) + DedupBy(b, key, seen + Keys(a, key))
    decreases |a|
  {
    if |a| == 0 {
      assert a + b == b;
      assert Keys(a, key) == {};
      assert seen + Keys(a, key) == seen;
    } else {
      var x := a[0];
      assert (a + b)[0] == x && (a + b)[1..] == a[1..] + b;
      KeysCons(a, key);
      if key(x) in seen {
        DedupByConcat(a[1..], b, key, seen);
        assert seen + Keys(a, key) == seen + Keys(a[1..], key);
      } else {
        DedupByConcat(a[1..], b, key, seen + {key(x)});
        assert seen + {key(x)} + Keys(a[1..], key) == seen + Keys(a, key);
      }
    }
  }

  /** Applies `f` to each element and keeps the present results, in order
      (a loop that appends `f(x)` whenever it is not `None`). */
  function FilterMap<A, B>(xs: seq<A>, f: A -> Option<B>): (r: seq<B>)
    ensures |r| <= |xs|
    decreases |xs|
  {
    if |xs| == 0 then []
    else
      match f(xs[0])
      case None => FilterMap(xs[1..], f)
      case Some(y) => [y] + FilterMap(xs[1..], f)
  }

  /** `y` is the `f` result of some element of `xs`. */
  predicate ResultOf<A, B(==)>(xs: seq<A>, f: A -> Option<B>, y: B)
  {
    exists i :: 0 <= i < |xs| && f(xs[i]) == Some(y)
  }

  /** Every kept result is the result of some element. */
  lemma {:induction false} FilterMapElements<A, B>(xs: seq<A>, f: A -> Option<B>)
    ensures forall k :: 0 <= k < |FilterMap(xs, f)| ==> ResultOf(xs, f, FilterMap(xs, f)[k])
    decreases |xs|
  {
    if |xs| > 0 {
      FilterMapElements(xs[1..], f);
      var r := FilterMap(xs, f);
      var rest := FilterMap(xs[1..], f);
      forall k | 0 <= k < |r|
        ensures ResultOf(xs, f, r[k])
      {
        if f(xs[0]).Some? && k == 0 {
          assert f(xs[0]) == Some(r[k]);
        } else {
          var k' := if f(xs[0]).Some? then k - 1 else k;
          assert r[k] == rest[k'];
          assert ResultOf(xs[1..], f, rest[k']);
          var i :| 0 <= i < |xs[1..]| && f(xs[1..][i]) == Some(rest[k']);
          assert f(xs[i + 1]) == Some(r[k]);
        }
      }
    }
  }

  /** One result per element for which `f` is defined (`p` tells which). */
  lemma {:induction false} FilterMapCount<A, B>(xs: seq<A>, f: A -> Option<B>, p: A -> bool)
    requires forall x :: p(x) == f(x).Some?
    ensures |FilterMap(xs, f)| == CountIf(xs, p)
    decreases |xs|
  {
    if |xs| > 0 {
      FilterMapCount(xs[1..], f, p);
    }
  }

  /** The elements are mapped one at a time. */
  lemma {:induction false} FilterMapConcat<A, B>(a: seq<A>, b: seq<A>, f: A -> Option<B>)
    ensures FilterMap(a + b, f) == FilterMap(a, f) + FilterMap(b, f)
    decreases |a|
  {
    if |a| > 0 {
      assert (a + b)[1..] == a[1..] + b;
      FilterMapConcat(a[1..], b, f);
    } else {
      assert a + b == b;
    }
  }
}
