/** The few operations on Rust `str` that the build script relies on, over
    `string` (a sequence of Unicode scalar values, as Rust's `char`). */
module Strings {
  import opened Wrappers

  /** `s.starts_with(prefix)` */
  predicate StartsWith(s: string, prefix: string) {
    |prefix| <= |s| && s[..|prefix|] == prefix
  }

  /** `s.ends_with(suffix)` */
  predicate EndsWith(s: string, suffix: string) {
    |suffix| <= |s| && s[|s| - |suffix|..] == suffix
  }

  /** `s.find(c)`: the position of the first occurrence of `c`. */
  function Find(s: string, c: char): (r: Option<nat>)
    ensures r.None? <==> c !in s
    ensures r.Some? ==> r.value < |s| && s[r.value] == c && c !in s[..r.value]
  {
    if |s| == 0 then None
    else if s[0] == c then Some(0)
    else
      match Find(s[1..], c)
      case None => None
      case Some(i) =>
        assert s[..i + 1] == [s[0]] + s[1..][..i];
        Some(i + 1)
  }

  /** A position holding `c` with no `c` before it is the one `Find` reports. */
  lemma FindFirst(s: string, c: char, i: nat)
    requires i < |s| && s[i] == c && c !in s[..i]
    ensures Find(s, c) == Some(i)
  {
  }

  /** `s.split_once(c)`: the text before and after the first `c`. */
  function SplitOnce(s: string, c: char): (r: Option<(string, string)>)
    ensures r.None? <==> c !in s
    ensures r.Some? ==> s == r.value.0 + [c] + r.value.1 && c !in r.value.0
  {
    match Find(s, c)
    case None => None
    case Some(i) =>
      assert s == s[..i] + [c] + s[i + 1..];
      Some((s[..i], s[i + 1..]))
  }

  /** The converse of `SplitOnce`'s contract: the split point is the first `c`,
      whatever follows it. */
  lemma SplitOnceAt(head: string, c: char, tail: string)
    requires c !in head
    ensures SplitOnce(head + [c] + tail, c) == Some((head, tail))
  {
    var s := head + [c] + tail;
    assert s[..|head|] == head;
    FindFirst(s, c, |head|);
    assert s[|head| + 1..] == tail;
  }

  /** The text before the first `c` of `s` starts with a prefix of `s` that
      holds no `c`. */
  lemma PrefixBeforeSeparator(s: string, prefix: string, head: string, c: char, tail: string)
    requires StartsWith(s, prefix) && c !in prefix
    requires s == head + [c] + tail
    ensures StartsWith(head, prefix)
  {
    assert s[|head|] == c && c !in s[..|prefix|];
    assert |head| >= |prefix|;
    assert head[..|prefix|] == s[..|prefix|];
  }

  /** `s.strip_prefix(c)` */
  function StripPrefix(s: string, c: char): (r: Option<string>)
    ensures r.Some? <==> |s| > 0 && s[0] == c
    ensures r.Some? ==> s == [c] + r.value
  {
    if |s| > 0 && s[0] == c then Some(s[1..]) else None
  }

  /** `s.strip_suffix(c)` */
  function StripSuffix(s: string, c: char): (r: Option<string>)
    ensures r.Some? <==> |s| > 0 && s[|s| - 1] == c
    ensures r.Some? ==> s == r.value + [c]
  {
    if |s| > 0 && s[|s| - 1] == c then Some(s[..|s| - 1]) else None
  }

  /** `s.split(c)`: the pieces between occurrences of `c`; `n` occurrences give
      `n + 1` pieces, empty ones included. */
  function Split(s: string, c: char): (r: seq<string>)
    decreases |s|
    ensures |r| >= 1
    ensures forall i :: 0 <= i < |r| ==> c !in r[i]
  {
    match SplitOnce(s, c)
    case None => [s]
    case Some((head, tail)) => [head] + Split(tail, c)
  }

  /** The pieces glued back together with `c` between consecutive ones. */
  function Join(pieces: seq<string>, c: char): string {
    if |pieces| == 0 then ""
    else if |pieces| == 1 then pieces[0]
    else pieces[0] + [c] + Join(pieces[1..], c)
  }

  /** Appending a piece adds one separator and the piece. */
  lemma {:induction false} JoinSnoc(pieces: seq<string>, c: char, last: string)
    decreases |pieces|
    requires |pieces| >= 1
    ensures Join(pieces + [last], c) == Join(pieces, c) + [c] + last
  {
    if |pieces| == 1 {
      assert pieces + [last] == [pieces[0], last];
    } else {
      assert (pieces + [last])[1..] == pieces[1..] + [last];
      JoinSnoc(pieces[1..], c, last);
    }
  }

  /** Splitting loses nothing: joining the pieces gives the text back. */
  lemma {:induction false} JoinSplit(s: string, c: char)
    decreases |s|
    ensures Join(Split(s, c), c) == s
  {
    match SplitOnce(s, c)
    case None =>
    case Some((head, tail)) =>
      JoinSplit(tail, c);
  }

  /** Splitting recovers pieces that were joined, provided none contains `c`. */
  lemma {:induction false} SplitJoin(pieces: seq<string>, c: char)
    requires |pieces| >= 1
    requires forall i :: 0 <= i < |pieces| ==> c !in pieces[i]
    ensures Split(Join(pieces, c), c) == pieces
  {
    if |pieces| > 1 {
      SplitOnceAt(pieces[0], c, Join(pieces[1..], c));
      SplitJoin(pieces[1..], c);
    }
  }
}
