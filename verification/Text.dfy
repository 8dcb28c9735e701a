/** The string operations the policy parser is written with, on Unicode text. */
module Text {

  /** White space as the trimming functions see it. */
  predicate IsSpace(c: char) {
    || '\U{9}' <= c <= '\U{d}' || c == ' ' || c == '\U{85}' || c == '\U{a0}' || c == '\U{1680}'
    || '\U{2000}' <= c <= '\U{200a}' || c == '\U{2028}' || c == '\U{2029}' || c == '\U{202f}'
    || c == '\U{205f}' || c == '\U{3000}'
  }

  /** p occurs in s at position i. */
  predicate At(s: string, p: string, i: int) {
    0 <= i && i + |p| <= |s| && s[i..i + |p|] == p
  }

  lemma AtChar(s: string, p: string, i: int, j: int)
    requires At(s, p, i) && 0 <= j < |p|
    ensures s[i + j] == p[j]
  {
    assert s[i..i + |p|][j] == s[i + j];
  }

  lemma NotAt(s: string, p: string, i: int, j: int)
    requires 0 <= i && 0 <= j < |p| && (i + j < |s| ==> s[i + j] != p[j])
    ensures !At(s, p, i)
  {
    if At(s, p, i) { AtChar(s, p, i, j); }
  }

  /** An occurrence in a piece of s is an occurrence in s, and the other way round. */
  lemma AtSlice(s: string, p: string, lo: nat, hi: nat, i: int)
    requires lo <= hi <= |s| && 0 <= i && i + |p| <= hi - lo
    ensures At(s[lo..hi], p, i) <==> At(s, p, lo + i)
  {
    var a, b := s[lo..hi][i..i + |p|], s[lo + i..lo + i + |p|];
    assert forall j | 0 <= j < |p| :: a[j] == b[j];
    assert a == b;
  }

  function IndexFrom(s: string, p: string, from: nat): (r: int)
    requires from <= |s| + 1
    ensures r == -1 || (from <= r && At(s, p, r))
    ensures forall i | from <= i && (r == -1 || i < r) :: !At(s, p, i)
    decreases |s| + 1 - from
  {
    if from > |s| then -1
    else if At(s, p, from) then from
    else IndexFrom(s, p, from + 1)
  }

  /** The first occurrence of p in s, or -1. */
  function Index(s: string, p: string): (r: int)
    ensures r == -1 || At(s, p, r)
    ensures forall i | r == -1 || i < r :: !At(s, p, i)
  {
    IndexFrom(s, p, 0)
  }

  function LastIndexTo(s: string, p: string, last: int): (r: int)
    requires -1 <= last
    ensures r == -1 || (r <= last && At(s, p, r))
    ensures forall i | r < i <= last :: !At(s, p, i)
    decreases last
  {
    if last == -1 then -1
    else if At(s, p, last) then last
    else LastIndexTo(s, p, last - 1)
  }

  /** The last occurrence of p in s, or -1. */
  function LastIndex(s: string, p: string): (r: int)
    ensures r == -1 || At(s, p, r)
    ensures forall i | r < i :: !At(s, p, i)
  {
    LastIndexTo(s, p, |s|)
  }

  function IndexAnyFrom(s: string, cs: set<char>, from: nat): (r: int)
    requires from <= |s|
    ensures r == -1 || (from <= r < |s| && s[r] in cs)
    ensures forall i | from <= i < |s| && (r == -1 || i < r) :: s[i] !in cs
    decreases |s| - from
  {
    if from == |s| then -1 else if s[from] in cs then from else IndexAnyFrom(s, cs, from + 1)
  }

  /** The first position in s of a character of cs, or -1. */
  function IndexAny(s: string, cs: set<char>): (r: int)
    ensures r == -1 || (0 <= r < |s| && s[r] in cs)
    ensures forall i | 0 <= i < |s| && (r == -1 || i < r) :: s[i] !in cs
  {
    IndexAnyFrom(s, cs, 0)
  }

  lemma IndexUnique(s: string, p: string, k: int)
    requires At(s, p, k) && forall i | i < k :: !At(s, p, i)
    ensures Index(s, p) == k
  {}

  lemma LastIndexUnique(s: string, p: string, k: int)
    requires At(s, p, k) && forall i | k < i :: !At(s, p, i)
    ensures LastIndex(s, p) == k
  {}

  // ---------------------------------------------------------------- trimming

  function LeftEdge(s: string, i: nat): nat
    requires i <= |s|
    decreases |s| - i
  {
    if i == |s| || !IsSpace(s[i]) then i else LeftEdge(s, i + 1)
  }

  /** The text starts at the left edge. */
  lemma {:induction false} LeftEdgeMeans(s: string, i: nat)
    requires i <= |s|
    ensures var k := LeftEdge(s, i);
      i <= k <= |s| && (forall j | i <= j < k :: IsSpace(s[j])) && (k < |s| ==> !IsSpace(s[k]))
    decreases |s| - i
  {
    if i < |s| && IsSpace(s[i]) { LeftEdgeMeans(s, i + 1); }
  }

  function RightEdge(s: string, k: nat): nat
    requires k <= |s|
  {
    if k == 0 || !IsSpace(s[k - 1]) then k else RightEdge(s, k - 1)
  }

  /** The text ends at the right edge. */
  lemma {:induction false} RightEdgeMeans(s: string, k: nat)
    requires k <= |s|
    ensures var r := RightEdge(s, k);
      r <= k && (forall j | r <= j < k :: IsSpace(s[j])) && (r > 0 ==> !IsSpace(s[r - 1]))
    decreases k
  {
    if k > 0 && IsSpace(s[k - 1]) { RightEdgeMeans(s, k - 1); }
  }

  function TrimSpace(s: string): string {
    var lo, hi := LeftEdge(s, 0), RightEdge(s, |s|);
    if lo <= hi <= |s| then s[lo..hi] else ""
  }

  predicate AllSpace(s: string) { forall i | 0 <= i < |s| :: IsSpace(s[i]) }

  /** Neither end is white space. */
  predicate Trimmed(s: string) { s == "" || (!IsSpace(s[0]) && !IsSpace(s[|s| - 1])) }

  /** Trimming yields a piece of the text, with nothing left to trim. */
  lemma TrimIsSlice(s: string) returns (lo: nat, hi: nat)
    ensures lo <= hi <= |s| && TrimSpace(s) == s[lo..hi] && Trimmed(TrimSpace(s))
  {
    LeftEdgeMeans(s, 0);
    RightEdgeMeans(s, |s|);
    lo, hi := LeftEdge(s, 0), RightEdge(s, |s|);
    if lo > hi { hi := lo; }
  }

  /** Padding is exactly what trimming removes. */
  lemma TrimPadded(pre: string, n: string, post: string)
    requires AllSpace(pre) && AllSpace(post) && Trimmed(n) && n != ""
    ensures TrimSpace(pre + n + post) == n
  {
    var s, lo, hi := pre + n + post, |pre|, |pre| + |n|;
    assert s[lo] == n[0] && s[hi - 1] == n[|n| - 1];
    assert forall i | 0 <= i < lo :: s[i] == pre[i];
    assert forall i | hi <= i < |s| :: s[i] == post[i - hi];
    LeftEdgeMeans(s, 0);
    RightEdgeMeans(s, |s|);
    assert LeftEdge(s, 0) == lo && RightEdge(s, |s|) == hi;
    assert s[lo..hi] == n;
  }

  lemma TrimTrimmed(n: string)
    requires Trimmed(n)
    ensures TrimSpace(n) == n
  {
    if n != "" {
      TrimPadded("", n, "");
      assert "" + n + "" == n;
    }
  }

  lemma TrimBlank(s: string)
    requires AllSpace(s)
    ensures TrimSpace(s) == ""
  {
    LeftEdgeMeans(s, 0);
    RightEdgeMeans(s, |s|);
  }

  // ---------------------------------------------------------------- splitting and joining

  /** Split at every c; never empty. */
  function Split(s: string, c: char): (r: seq<string>)
    ensures |r| >= 1
    decreases |s|
  {
    var i := IndexAny(s, {c});
    if i == -1 then [s] else [s[..i]] + Split(s[i + 1..], c)
  }

  lemma {:induction false} PartsClean(s: string, c: char)
    ensures forall i | 0 <= i < |Split(s, c)| :: c !in Split(s, c)[i]
    decreases |s|
  {
    var i := IndexAny(s, {c});
    if i != -1 { PartsClean(s[i + 1..], c); }
  }

  function Join(parts: seq<string>, c: char): string {
    if parts == [] then "" else if |parts| == 1 then parts[0] else parts[0] + [c] + Join(parts[1..], c)
  }

  lemma JoinCons(a: string, rest: seq<string>, c: char)
    requires rest != []
    ensures Join([a] + rest, c) == a + [c] + Join(rest, c)
  {
    assert ([a] + rest)[1..] == rest;
  }

  lemma CutAt(s: string, i: nat)
    requires i < |s|
    ensures s == s[..i] + [s[i]] + s[i + 1..]
  {}

  lemma {:induction false} JoinSplit(s: string, c: char)
    ensures Join(Split(s, c), c) == s
    decreases |s|
  {
    var i := IndexAny(s, {c});
    if i != -1 {
      JoinSplit(s[i + 1..], c);
      JoinCons(s[..i], Split(s[i + 1..], c), c);
      CutAt(s, i);
    }
  }

  /** t is a piece of s. */
  ghost predicate Piece(t: string, s: string) { exists lo, hi :: 0 <= lo <= hi <= |s| && t == s[lo..hi] }

  lemma HeadPiece(s: string, i: nat)
    requires i <= |s|
    ensures Piece(s[..i], s) && Piece(s, s)
  {
    assert s[0..i] == s[..i] && s[0..|s|] == s;
  }

  lemma TailPiece(t: string, s: string, m: nat)
    requires m <= |s| && Piece(t, s[m..])
    ensures Piece(t, s)
  {
    var lo, hi :| 0 <= lo <= hi <= |s[m..]| && t == s[m..][lo..hi];
    assert s[m..][lo..hi] == s[m + lo..m + hi];
  }

  ghost predicate AllPieces(parts: seq<string>, s: string) { forall k | 0 <= k < |parts| :: Piece(parts[k], s) }

  lemma PiecesCons(i: nat, parts: seq<string>, s: string)
    requires i < |s| && AllPieces(parts, s[i + 1..])
    ensures AllPieces([s[..i]] + parts, s)
  {
    HeadPiece(s, i);
    forall k | 0 <= k < |parts| ensures Piece(parts[k], s) { TailPiece(parts[k], s, i + 1); }
  }

  lemma {:induction false} PartsArePieces(s: string, c: char)
    ensures AllPieces(Split(s, c), s)
    decreases |s|
  {
    var i := IndexAny(s, {c});
    if i == -1 {
      HeadPiece(s, |s|);
    } else {
      PartsArePieces(s[i + 1..], c);
      PiecesCons(i, Split(s[i + 1..], c), s);
    }
  }

  lemma {:induction false} SplitJoin(parts: seq<string>, c: char)
    requires parts != [] && forall i | 0 <= i < |parts| :: c !in parts[i]
    ensures Split(Join(parts, c), c) == parts
    decreases |parts|
  {
    if |parts| == 1 {
      SplitNone(parts[0], c);
    } else {
      SplitJoin(parts[1..], c);
      SplitFirst(parts[0], c, Join(parts[1..], c));
    }
  }

  lemma {:induction false} JoinConcat(a: seq<string>, c: char, b: seq<string>)
    requires a != [] && b != []
    ensures Join(a + b, c) == Join(a, c) + [c] + Join(b, c)
    decreases |a|
  {
    if |a| == 1 {
      assert a == [a[0]];
      JoinCons(a[0], b, c);
    } else {
      var rest := a[1..];
      JoinConcat(rest, c, b);
      JoinCons(a[0], rest, c);
      JoinCons(a[0], rest + b, c);
      assert a == [a[0]] + rest && a + b == [a[0]] + (rest + b);
      Reassociate(a[0], c, Join(rest, c), Join(b, c));
    }
  }

  lemma Reassociate(head: string, c: char, tail: string, b: string)
    ensures (head + [c] + tail) + [c] + b == head + [c] + (tail + [c] + b)
  {}

  /** A separator separates the parts before it from the parts after it. */
  lemma SplitConcat(a: string, c: char, b: string)
    ensures Split(a + [c] + b, c) == Split(a, c) + Split(b, c)
  {
    JoinSplit(a, c);
    JoinSplit(b, c);
    PartsClean(a, c);
    PartsClean(b, c);
    JoinConcat(Split(a, c), c, Split(b, c));
    SplitJoin(Split(a, c) + Split(b, c), c);
  }

  lemma SplitNone(s: string, c: char)
    requires c !in s
    ensures Split(s, c) == [s]
  {}

  lemma FirstAt(a: string, c: char, rest: string)
    requires c !in a
    ensures IndexAny(a + [c] + rest, {c}) == |a|
  {
    var s := a + [c] + rest;
    assert s[|a|] == c;
    assert forall i | 0 <= i < |a| :: s[i] == a[i];
  }

  lemma Around(a: string, c: char, rest: string)
    ensures (a + [c] + rest)[..|a|] == a && (a + [c] + rest)[|a| + 1..] == rest
  {}

  lemma SplitFirst(a: string, c: char, rest: string)
    requires c !in a
    ensures Split(a + [c] + rest, c) == [a] + Split(rest, c)
  {
    FirstAt(a, c, rest);
    Around(a, c, rest);
  }

  lemma Regroup(a: string, head: string, c: char, rest: string)
    ensures a + (head + [c] + rest) == (a + head) + [c] + rest
  {}

  lemma HeadAndTail(head: string, tail: seq<string>)
    ensures ([head] + tail)[0] == head && ([head] + tail)[1..] == tail
  {}

  /** Text with no separator in it, put in front, only lengthens the first part. */
  lemma SplitPrepend(a: string, s: string, c: char)
    requires c !in a
    ensures Split(a + s, c) == [a + Split(s, c)[0]] + Split(s, c)[1..]
  {
    var i := IndexAny(s, {c});
    if i == -1 {
      assert c !in a + s;
    } else {
      var head, rest := s[..i], s[i + 1..];
      CutAt(s, i);
      Regroup(a, head, c, rest);
      SplitFirst(a + head, c, rest);
      SplitFirst(head, c, rest);
      HeadAndTail(head, Split(rest, c));
    }
  }
}
