/** The few Python string operations the ingestion code relies on, over
    `string` = `seq<char>` (one `char` per Unicode code point, as Python
    indexes `str`). */
module Strs {
  import opened Optional

  /** Python's `s.startswith(prefix)`. */
  predicate StartsWith(s: string, prefix: string)
  {
    prefix <= s
  }

  /** Python's `s.endswith(suffix)`. */
  predicate EndsWith(s: string, suffix: string)
  {
    |suffix| <= |s| && s[|s| - |suffix|..] == suffix
  }

  /** Python's `t in s` on strings: `t` occurs in `s` as a contiguous piece.
      The empty string occurs in every string. */
  predicate Contains(s: string, t: string)
  {
    exists i :: 0 <= i <= |s| - |t| && OccursAt(s, t, i)
  }

  /** `t` occurs in `s` starting at index `i`. */
  predicate OccursAt(s: string, t: string, i: int)
  {
    0 <= i <= |s| - |t| && s[i..i + |t|] == t
  }

  /** Every character of `s` belongs to `cs`. */
  predicate AllIn(s: string, cs: set<char>)
  {
    forall k :: 0 <= k < |s| ==> s[k] in cs
  }

  /** A prefix occurs. */
  lemma StartsWithContains(s: string, t: string)
    requires StartsWith(s, t)
    ensures Contains(s, t)
  {
    assert OccursAt(s, t, 0);
  }

  /** An occurrence in `a` is an occurrence in `a + b`. */
  lemma ContainsAppend(a: string, b: string, t: string)
    requires Contains(a, t)
    ensures Contains(a + b, t)
  {
    var i :| 0 <= i <= |a| - |t| && OccursAt(a, t, i);
    assert (a + b)[i..i + |t|] == a[i..i + |t|];
    assert OccursAt(a + b, t, i);
  }

  /** An occurrence in `b` is an occurrence in `a + b`. */
  lemma ContainsPrepend(a: string, b: string, t: string)
    requires Contains(b, t)
    ensures Contains(a + b, t)
  {
    var i :| 0 <= i <= |b| - |t| && OccursAt(b, t, i);
    assert (a + b)[|a| + i..|a| + i + |t|] == b[i..i + |t|];
    assert OccursAt(a + b, t, |a| + i);
  }

  /** A suffix of `b` is a suffix of `a + b`. */
  lemma EndsWithPrepend(a: string, b: string, t: string)
    requires EndsWith(b, t) || b == t
    ensures EndsWith(a + b, t)
  {
    assert (a + b)[|a + b| - |t|..] == b[|b| - |t|..];
  }

  /** A concatenation opens with its first part and closes with its
      second. */
  lemma ConcatFrame(a: string, b: string)
    ensures StartsWith(a + b, a) && EndsWith(a + b, b)
  {
    assert (a + b)[..|a|] == a;
    assert (a + b)[|a + b| - |b|..] == b;
  }

  /** A piece of a piece of a string is a piece of it. */
  lemma ContainsNested(s: string, t: string, u: string)
    requires Contains(s, t) && Contains(t, u)
    ensures Contains(s, u)
  {
    var i :| 0 <= i <= |s| - |t| && OccursAt(s, t, i);
    var j :| 0 <= j <= |t| - |u| && OccursAt(t, u, j);
    forall k | 0 <= k < |u|
      ensures s[i + j + k] == u[k]
    {
      assert s[i..i + |t|][j + k] == t[j + k];
      assert t[j..j + |u|][k] == u[k];
    }
    assert s[i + j..i + j + |u|] == u;
    assert OccursAt(s, u, i + j);
  }

  /** `r` is `s` with some characters of `cs` cut from its two ends. */
  ghost predicate Trimmed(s: string, r: string, cs: set<char>)
  {
    exists i :: OccursAt(s, r, i) && AllIn(s[..i], cs) && AllIn(s[i + |r|..], cs)
  }

  /** `r` is `s` with every character of `cs` cut from its two ends, as
      `str.strip(cs)` leaves it. */
  ghost predicate Stripped(s: string, r: string, cs: set<char>)
  {
    Trimmed(s, r, cs) && (|r| > 0 ==> r[0] !in cs && r[|r| - 1] !in cs)
  }

  /** Trimming twice is trimming once, by the characters of both sets. */
  lemma TrimmedNested(s: string, t: string, u: string, cs: set<char>, ds: set<char>)
    requires Trimmed(s, t, cs) && Trimmed(t, u, ds)
    ensures Trimmed(s, u, cs + ds)
  {
    var i :| OccursAt(s, t, i) && AllIn(s[..i], cs) && AllIn(s[i + |t|..], cs);
    var j :| OccursAt(t, u, j) && AllIn(t[..j], ds) && AllIn(t[j + |u|..], ds);
    forall k | 0 <= k < |u|
      ensures s[i + j + k] == u[k]
    {
      assert s[i..i + |t|][j + k] == t[j + k];
      assert t[j..j + |u|][k] == u[k];
    }
    assert s[i + j..i + j + |u|] == u;
    forall k | 0 <= k < i + j
      ensures s[k] in cs + ds
    {
      if k < i {
        assert s[..i][k] == s[k];
      } else {
        assert s[i..i + |t|][k - i] == t[k - i];
        assert t[..j][k - i] == t[k - i];
      }
    }
    forall k | i + j + |u| <= k < |s|
      ensures s[k] in cs + ds
    {
      if k < i + |t| {
        assert s[i..i + |t|][k - i] == t[k - i];
        assert t[j + |u|..][k - i - j - |u|] == t[k - i];
      } else {
        assert s[i + |t|..][k - i - |t|] == s[k];
      }
    }
    assert OccursAt(s, u, i + j) && AllIn(s[..i + j], cs + ds) && AllIn(s[i + j + |u|..], cs + ds);
  }

  /** Stripping three sets of characters one after the other trims the
      string by their union, and keeps a piece of it. */
  lemma StripCharsThrice(s: string, cs: set<char>, ds: set<char>, es: set<char>)
    ensures var r := StripChars(StripChars(StripChars(s, cs), ds), es);
            Trimmed(s, r, cs + ds + es) && Contains(s, r)
  {
    var a := StripChars(s, cs);
    var b := StripChars(a, ds);
    var c := StripChars(b, es);
    TrimmedNested(s, a, b, cs, ds);
    TrimmedNested(s, b, c, cs + ds, es);
    StripCharsContained(s, cs);
    StripCharsContained(a, ds);
    StripCharsContained(b, es);
    ContainsNested(s, a, b);
    ContainsNested(s, b, c);
  }

  /** Stripping keeps a piece of the string. */
  lemma StripCharsContained(s: string, cs: set<char>)
    ensures Contains(s, StripChars(s, cs))
  {
    var r := StripChars(s, cs);
    var i :| OccursAt(s, r, i) && AllIn(s[..i], cs) && AllIn(s[i + |r|..], cs);
    assert 0 <= i <= |s| - |r|;
  }

  /** Only the empty string occurs in the empty string. */
  lemma ContainsInEmpty(t: string)
    ensures Contains("", t) <==> t == ""
  {
    if t == "" {
      assert OccursAt("", t, 0);
    }
  }

  /** The characters Python's `str.strip()` removes (`str.isspace`). */
  const Whitespace: set<char> := {
    ' ', '\t', '\n', '\r', '\U{B}', '\U{C}',
    '\U{1C}', '\U{1D}', '\U{1E}', '\U{1F}', '\U{85}', '\U{A0}', '\U{1680}',
    '\U{2000}', '\U{2001}', '\U{2002}', '\U{2003}', '\U{2004}', '\U{2005}',
    '\U{2006}', '\U{2007}', '\U{2008}', '\U{2009}', '\U{200A}',
    '\U{2028}', '\U{2029}', '\U{202F}', '\U{205F}', '\U{3000}'
  }

  /** Drops the leading characters that belong to `cs`. */
  function TrimStart(s: string, cs: set<char>): (r: string)
    ensures |r| <= |s| && r == s[|s| - |r|..]
    ensures forall i :: 0 <= i < |s| - |r| ==> s[i] in cs
    ensures |r| > 0 ==> r[0] !in cs
    decreases |s|
  {
    if |s| > 0 && s[0] in cs then TrimStart(s[1..], cs) else s
  }

  /** Drops the trailing characters that belong to `cs`. */
  function TrimEnd(s: string, cs: set<char>): (r: string)
    ensures |r| <= |s| && r == s[..|r|]
    ensures forall i :: |r| <= i < |s| ==> s[i] in cs
    ensures |r| > 0 ==> r[|r| - 1] !in cs
    decreases |s|
  {
    if |s| > 0 && s[|s| - 1] in cs then TrimEnd(s[..|s| - 1], cs) else s
  }

  /** Python's `s.strip(chars)`: the slice of `s` left after removing every
      leading and trailing character in `cs`. */
  function StripChars(s: string, cs: set<char>): (r: string)
    ensures exists i :: OccursAt(s, r, i) && AllIn(s[..i], cs) && AllIn(s[i + |r|..], cs)
    ensures |r| > 0 ==> r[0] !in cs && r[|r| - 1] !in cs
  {
    var t := TrimStart(s, cs);
    var r := TrimEnd(t, cs);
    FramedSlice(s, t, r, cs);
    assert OccursAt(s, r, |s| - |t|) && AllIn(s[..|s| - |t|], cs) && AllIn(s[|s| - |t| + |r|..], cs);
    r
  }

  /** A prefix `r` of a suffix `t` of `s`, where what the suffix leaves out
      and what the prefix leaves out are characters of `cs`, is a slice of
      `s` framed by characters of `cs`. */
  lemma FramedSlice(s: string, t: string, r: string, cs: set<char>)
    requires |t| <= |s| && t == s[|s| - |t|..]
    requires forall k :: 0 <= k < |s| - |t| ==> s[k] in cs
    requires |r| <= |t| && r == t[..|r|]
    requires forall k :: |r| <= k < |t| ==> t[k] in cs
    ensures var i := |s| - |t|;
      OccursAt(s, r, i) && AllIn(s[..i], cs) && AllIn(s[i + |r|..], cs)
  {
    var i := |s| - |t|;
    assert s[i..i + |r|] == r;
    var head, tail := s[..i], s[i + |r|..];
    forall k | 0 <= k < |head| ensures head[k] in cs {
      assert head[k] == s[k];
    }
    forall k | 0 <= k < |tail| ensures tail[k] in cs {
      assert tail[k] == t[|r| + k];
    }
  }

  /** Leading characters of `cs` in front of a string that does not start
      with one are exactly what `TrimStart` removes. */
  lemma {:induction false} TrimStartFrame(pre: string, s: string, cs: set<char>)
    requires AllIn(pre, cs)
    requires |s| > 0 && s[0] !in cs
    ensures TrimStart(pre + s, cs) == s
    decreases |pre|
  {
    if |pre| > 0 {
      assert (pre + s)[1..] == pre[1..] + s;
      TrimStartFrame(pre[1..], s, cs);
    } else {
      assert pre + s == s;
    }
  }

  /** Trailing characters of `cs` after a string that does not end with one
      are exactly what `TrimEnd` removes. */
  lemma {:induction false} TrimEndFrame(s: string, post: string, cs: set<char>)
    requires AllIn(post, cs)
    requires |s| > 0 && s[|s| - 1] !in cs
    ensures TrimEnd(s + post, cs) == s
    decreases |post|
  {
    if |post| > 0 {
      assert (s + post)[..|s + post| - 1] == s + post[..|post| - 1];
      TrimEndFrame(s, post[..|post| - 1], cs);
    } else {
      assert s + post == s;
    }
  }

  /** Stripping removes exactly a frame of strippable characters around a
      string whose ends are not strippable. */
  lemma StripCharsFrame(pre: string, s: string, post: string, cs: set<char>)
    requires AllIn(pre, cs) && AllIn(post, cs)
    requires |s| > 0 && s[0] !in cs && s[|s| - 1] !in cs
    ensures StripChars(pre + s + post, cs) == s
  {
    assert pre + s + post == pre + (s + post);
    TrimStartFrame(pre, s + post, cs);
    TrimEndFrame(s, post, cs);
  }

  /** Python's `s.strip()`. */
  function Strip(s: string): string
  {
    StripChars(s, Whitespace)
  }

  /** A string without strippable characters at either end is left as is. */
  lemma StripCharsNoEdges(s: string, cs: set<char>)
    requires |s| > 0 ==> s[0] !in cs && s[|s| - 1] !in cs
    ensures StripChars(s, cs) == s
  {
  }

  /** Stripping is idempotent. */
  lemma StripCharsIdempotent(s: string, cs: set<char>)
    ensures StripChars(StripChars(s, cs), cs) == StripChars(s, cs)
  {
    StripCharsNoEdges(StripChars(s, cs), cs);
  }

  /** Python's `s.find(c)` for one character: the first index, or `None`
      where Python answers -1. */
  function Find(s: string, c: char): (r: Option<nat>)
    ensures r.None? <==> c !in s
    ensures r.Some? ==> r.value < |s| && s[r.value] == c && c !in s[..r.value]
    decreases |s|
  {
    if |s| == 0 then None
    else if s[0] == c then Some(0)
    else match Find(s[1..], c)
      case None => None
      case Some(i) =>
        assert s[..i + 1] == [s[0]] + s[1..][..i];
        Some(i + 1)
  }

  /** How many times `c` occurs in `s` (Python's `s.count(c)`). */
  function Occurrences(s: string, c: char): nat
  {
    if |s| == 0 then 0 else (if s[0] == c then 1 else 0) + Occurrences(s[1..], c)
  }

  /** Python's `s.split(c)` for a one-character separator: the pieces
      between separators, empty pieces included. */
  function Split(s: string, c: char): (r: seq<string>)
    ensures |r| >= 1
    ensures forall i :: 0 <= i < |r| ==> c !in r[i]
    decreases |s|
  {
    match Find(s, c)
    case None => [s]
    case Some(i) => [s[..i]] + Split(s[i + 1..], c)
  }

  /** A split has one more piece than there are separators. */
  lemma {:induction false} SplitLength(s: string, c: char)
    ensures |Split(s, c)| == Occurrences(s, c) + 1
    decreases |s|
  {
    match Find(s, c)
    case None =>
      NoOccurrences(s, c);
    case Some(i) =>
      assert |Split(s, c)| == 1 + |Split(s[i + 1..], c)|;
      SplitLength(s[i + 1..], c);
      OccurrencesSplit(s, c, i);
  }

  /** A character that is absent is counted zero times. */
  lemma {:induction false} NoOccurrences(s: string, c: char)
    requires c !in s
    ensures Occurrences(s, c) == 0
    decreases |s|
  {
    if |s| > 0 {
      assert c !in s[1..];
      NoOccurrences(s[1..], c);
    }
  }

  /** Counting across the first separator. */
  lemma {:induction false} OccurrencesSplit(s: string, c: char, i: nat)
    requires i < |s| && s[i] == c && c !in s[..i]
    ensures Occurrences(s, c) == 1 + Occurrences(s[i + 1..], c)
    decreases i
  {
    if i > 0 {
      assert s[1..][..i - 1] == s[1..i];
      assert c !in s[1..][..i - 1];
      OccurrencesSplit(s[1..], c, i - 1);
      assert s[1..][i..] == s[i + 1..];
    } else {
      assert s[1..] == s[i + 1..];
    }
  }

  /** Python's `sep.join(parts)`. */
  function Join(parts: seq<string>, sep: string): (r: string)
    ensures |parts| == 0 ==> r == ""
    decreases |parts|
  {
    if |parts| == 0 then ""
    else if |parts| == 1 then parts[0]
    else parts[0] + sep + Join(parts[1..], sep)
  }

  /** A join starts with its first piece and ends with its last one. */
  lemma {:induction false} JoinEnds(parts: seq<string>, sep: string)
    requires |parts| >= 1
    ensures StartsWith(Join(parts, sep), parts[0])
    ensures EndsWith(Join(parts, sep), parts[|parts| - 1])
    decreases |parts|
  {
    if |parts| > 1 {
      JoinEnds(parts[1..], sep);
      EndsWithPrepend(parts[0] + sep, Join(parts[1..], sep), parts[|parts| - 1]);
    }
  }

  /** Each piece occurs in the join. */
  lemma {:induction false} JoinContainsPart(parts: seq<string>, sep: string, i: nat)
    requires i < |parts|
    ensures Contains(Join(parts, sep), parts[i])
    decreases |parts|
  {
    if |parts| == 1 {
      StartsWithContains(parts[0], parts[0]);
    } else if i == 0 {
      StartsWithContains(parts[0] + sep + Join(parts[1..], sep), parts[0]);
    } else {
      JoinContainsPart(parts[1..], sep, i - 1);
      ContainsPrepend(parts[0] + sep, Join(parts[1..], sep), parts[i]);
    }
  }

  /** Joining the pieces of a split with the separator gives back the
      original string. */
  lemma {:induction false} JoinSplit(s: string, c: char)
    ensures Join(Split(s, c), [c]) == s
    decreases |s|
  {
    match Find(s, c)
    case None =>
    case Some(i) =>
      JoinSplit(s[i + 1..], c);
      var r := Split(s, c);
      assert r[0] == s[..i] && r[1..] == Split(s[i + 1..], c);
      assert s == s[..i] + [c] + s[i + 1..];
  }

  /** Splitting a join of separator-free pieces gives back the pieces. */
  lemma {:induction false} SplitJoin(parts: seq<string>, c: char)
    requires |parts| >= 1
    requires forall i :: 0 <= i < |parts| ==> c !in parts[i]
    ensures Split(Join(parts, [c]), c) == parts
    decreases |parts|
  {
    var p := parts[0];
    if |parts| > 1 {
      var rest := Join(parts[1..], [c]);
      var s := p + [c] + rest;
      assert s[|p|] == c && s[..|p|] == p;
      assert Find(s, c) == Some(|p|);
      assert s[|p| + 1..] == rest;
      SplitJoin(parts[1..], c);
    }
  }
}
