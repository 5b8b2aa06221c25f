/**
 * The functions of Go's `strings` package that the relay relies on, over
 * strings of Unicode code points: TrimSpace, Index, ReplaceAll, SplitAfter,
 * HasPrefix and TrimPrefix. Each one is specified by what it computes, and
 * the lemmas below give each cutting function its inverse.
 */
module GoStrings {

  // ---------------------------------------------------------------------
  // White space and TrimSpace
  // ---------------------------------------------------------------------

  /**
   * Go's unicode.IsSpace, which strings.TrimSpace uses: exactly the
   * characters with the Unicode White_Space property, given as ranges.
   */
  predicate IsSpace(c: char) {
    InRanges(c, [
      ('\t', '\r'), (' ', ' '), ('\U{0085}', '\U{0085}'), ('\U{00A0}', '\U{00A0}'),
      ('\U{1680}', '\U{1680}'), ('\U{2000}', '\U{200A}'), ('\U{2028}', '\U{2029}'),
      ('\U{202F}', '\U{202F}'), ('\U{205F}', '\U{205F}'), ('\U{3000}', '\U{3000}')])
  }

  /** `c` lies in one of the closed ranges. */
  predicate InRanges(c: char, ranges: seq<(char, char)>) {
    ranges != [] && ((ranges[0].0 <= c <= ranges[0].1) || InRanges(c, ranges[1..]))
  }

  predicate AllSpace(s: string) {
    forall k :: 0 <= k < |s| ==> IsSpace(s[k])
  }

  /** Neither end of `s` is white space. */
  predicate Trimmed(s: string) {
    s == [] || (!IsSpace(s[0]) && !IsSpace(s[|s| - 1]))
  }

  /** The number of white-space characters `s` starts with. */
  function LeadingSpaces(s: string): (n: nat)
    ensures n <= |s|
    ensures forall k :: 0 <= k < n ==> IsSpace(s[k])
    ensures n < |s| ==> !IsSpace(s[n])
  {
    if s == [] || !IsSpace(s[0]) then 0 else 1 + LeadingSpaces(s[1..])
  }

  /** The number of white-space characters `s` ends with. */
  function TrailingSpaces(s: string): (n: nat)
    ensures n <= |s|
    ensures forall k :: |s| - n <= k < |s| ==> IsSpace(s[k])
    ensures n < |s| ==> !IsSpace(s[|s| - n - 1])
  {
    if s == [] || !IsSpace(s[|s| - 1]) then 0 else 1 + TrailingSpaces(s[..|s| - 1])
  }

  /**
   * Go's strings.TrimSpace: the infix of `s` between its leading and its
   * trailing white space; empty when `s` is all white space.
   */
  function TrimSpace(s: string): (r: string)
    ensures Trimmed(r)
  {
    var i, j := LeadingSpaces(s), |s| - TrailingSpaces(s);
    if i == |s| then [] else s[i..j]
  }

  /** TrimSpace only removes white space, and only at the two ends. */
  lemma TrimSpaceInfix(s: string)
    ensures var r, i := TrimSpace(s), LeadingSpaces(s);
      && i + |r| <= |s|
      && s[i..i + |r|] == r
      && AllSpace(s[..i])
      && AllSpace(s[i + |r|..])
  {
    var r, i, j := TrimSpace(s), LeadingSpaces(s), |s| - TrailingSpaces(s);
    forall k | 0 <= k < i ensures IsSpace(s[..i][k]) {
      assert s[..i][k] == s[k];
    }
    if i < |s| {
      assert r == s[i..j];
      forall k | 0 <= k < |s| - j ensures IsSpace(s[j..][k]) {
        assert s[j..][k] == s[j + k];
      }
    }
  }

  /** TrimSpace leaves nothing exactly when the string is all white space. */
  lemma TrimSpaceEmptyIff(s: string)
    ensures TrimSpace(s) == [] <==> AllSpace(s)
  {
    if AllSpace(s) {
      assert LeadingSpaces(s) == |s|;
    }
  }

  /** The leading white space of a string is counted by any bound that fits its description. */
  lemma LeadingSpacesIs(s: string, n: nat)
    requires n <= |s| && (forall k :: 0 <= k < n ==> IsSpace(s[k])) && (n < |s| ==> !IsSpace(s[n]))
    ensures LeadingSpaces(s) == n
  {
  }

  /** The trailing white space of a string is counted by any bound that fits its description. */
  lemma TrailingSpacesIs(s: string, n: nat)
    requires n <= |s| && (forall k :: |s| - n <= k < |s| ==> IsSpace(s[k])) && (n < |s| ==> !IsSpace(s[|s| - n - 1]))
    ensures TrailingSpaces(s) == n
  {
  }

  /**
   * TrimSpace is characterised by its result: whatever trimmed string is
   * surrounded by white space, TrimSpace gives it back.
   */
  lemma TrimSpaceOf(a: string, m: string, b: string)
    requires AllSpace(a) && AllSpace(b) && Trimmed(m)
    ensures TrimSpace(a + m + b) == m
  {
    var s := a + m + b;
    if m == [] {
      LeadingSpacesIs(s, |s|);
    } else {
      LeadingSpacesIs(s, |a|);
      TrailingSpacesIs(s, |b|);
      assert s[|a|..|a| + |m|] == m;
    }
  }

  /** TrimSpace leaves a trimmed string unchanged, so trimming twice is trimming once. */
  lemma TrimSpaceIdempotent(s: string)
    ensures Trimmed(s) ==> TrimSpace(s) == s
    ensures TrimSpace(TrimSpace(s)) == TrimSpace(s)
  {
    forall t | Trimmed(t) ensures TrimSpace(t) == t {
      assert [] + t + [] == t;
      TrimSpaceOf([], t, []);
    }
  }

  // ---------------------------------------------------------------------
  // Searching: HasPrefix, TrimPrefix, Index
  // ---------------------------------------------------------------------

  /** Go's strings.HasPrefix. */
  predicate HasPrefix(s: string, prefix: string) {
    |prefix| <= |s| && s[..|prefix|] == prefix
  }

  /** Go's strings.TrimPrefix: `s` without `prefix` when it starts with it, else `s`. */
  function TrimPrefix(s: string, prefix: string): (r: string)
    ensures HasPrefix(s, prefix) ==> s == prefix + r
    ensures !HasPrefix(s, prefix) ==> r == s
  {
    if HasPrefix(s, prefix) then s[|prefix|..] else s
  }

  /** `pat` occurs in `s` at offset `k`. */
  predicate OccursAt(s: string, pat: string, k: int) {
    0 <= k && k + |pat| <= |s| && s[k..k + |pat|] == pat
  }

  /** Go's strings.Contains. */
  predicate Contains(s: string, pat: string) {
    exists k | 0 <= k <= |s| - |pat| :: OccursAt(s, pat, k)
  }

  lemma OccursAtShift(s: string, pat: string, k: int)
    requires 1 <= k && s != []
    ensures OccursAt(s, pat, k) <==> OccursAt(s[1..], pat, k - 1)
  {
    if k + |pat| <= |s| {
      assert s[1..][k - 1..k - 1 + |pat|] == s[k..k + |pat|];
    }
  }

  /** Go's strings.Index: the offset of the leftmost occurrence of `pat` in `s`, or -1. */
  function Index(s: string, pat: string): (r: int)
    ensures r == -1 <==> !Contains(s, pat)
    ensures r != -1 ==> OccursAt(s, pat, r)
    ensures forall k :: 0 <= k < r ==> !OccursAt(s, pat, k)
  {
    if |s| < |pat| then -1
    else if s[..|pat|] == pat then
      assert OccursAt(s, pat, 0);
      0
    else
      var k := Index(s[1..], pat);
      assert forall j :: 1 <= j ==> (OccursAt(s, pat, j) <==> OccursAt(s[1..], pat, j - 1)) by {
        forall j | 1 <= j { OccursAtShift(s, pat, j); }
      }
      if k == -1 then -1
      else
        assert OccursAt(s, pat, k + 1);
        k + 1
  }

  /** The leftmost occurrence is the answer of Index. */
  lemma IndexIs(s: string, pat: string, i: int)
    requires OccursAt(s, pat, i)
    requires forall k :: 0 <= k < i ==> !OccursAt(s, pat, k)
    ensures Index(s, pat) == i
  {
  }

  /** An occurrence that ends where `s` ends, with none before it. */
  predicate EndsAtFirst(s: string, sep: string) {
    |sep| <= |s| && Index(s, sep) == |s| - |sep|
  }

  /** An occurrence that lies inside `p` is unaffected by what follows `p`. */
  lemma OccursAtAppend(p: string, rest: string, pat: string, k: int)
    requires 0 <= k && k + |pat| <= |p|
    ensures OccursAt(p + rest, pat, k) <==> OccursAt(p, pat, k)
  {
    assert (p + rest)[k..k + |pat|] == p[k..k + |pat|];
  }

  /** What follows a first occurrence does not move it. */
  lemma IndexExtend(p: string, rest: string, pat: string)
    requires Index(p, pat) != -1
    ensures Index(p + rest, pat) == Index(p, pat)
  {
    var i := Index(p, pat);
    OccursAtAppend(p, rest, pat, i);
    forall k | 0 <= k < i ensures !OccursAt(p + rest, pat, k) {
      OccursAtAppend(p, rest, pat, k);
    }
    IndexIs(p + rest, pat, i);
  }

  /** Cutting after the first occurrence keeps it first. */
  lemma IndexTake(s: string, pat: string, n: int)
    requires Index(s, pat) != -1 && Index(s, pat) + |pat| <= n <= |s|
    ensures Index(s[..n], pat) == Index(s, pat)
  {
    var i, p := Index(s, pat), s[..n];
    assert s == p + s[n..];
    OccursAtAppend(p, s[n..], pat, i);
    forall k | 0 <= k < i ensures !OccursAt(p, pat, k) {
      OccursAtAppend(p, s[n..], pat, k);
    }
    IndexIs(p, pat, i);
  }

  // ---------------------------------------------------------------------
  // Concatenation and joining
  // ---------------------------------------------------------------------

  /**
   * The pieces laid end to end. This is Go's strings.Join with an empty
   * separator (JoinEmptyIsConcat below); it is kept as a function of its own
   * because SplitAfter's pieces already carry their separators, so Concat is
   * SplitAfter's inverse, while Join with a token is what ReplaceAll undoes.
   */
  function Concat(pieces: seq<string>): string {
    if pieces == [] then [] else pieces[0] + Concat(pieces[1..])
  }

  lemma ConcatCons(piece: string, rest: seq<string>)
    ensures Concat([piece] + rest) == piece + Concat(rest)
  {
    assert ([piece] + rest)[1..] == rest;
  }

  /** Go's strings.Join. */
  function Join(pieces: seq<string>, sep: string): string {
    if |pieces| == 0 then []
    else if |pieces| == 1 then pieces[0]
    else pieces[0] + sep + Join(pieces[1..], sep)
  }

  /** Joining two or more pieces puts the first one and a separator in front. */
  lemma JoinCons(pieces: seq<string>, sep: string)
    requires |pieces| >= 2
    ensures Join(pieces, sep) == (pieces[0] + sep) + Join(pieces[1..], sep)
  {
  }

  lemma {:induction false} JoinEmptyIsConcat(pieces: seq<string>)
    ensures Join(pieces, []) == Concat(pieces)
  {
    if |pieces| > 1 {
      JoinEmptyIsConcat(pieces[1..]);
      assert pieces[0] + [] + Join(pieces[1..], []) == pieces[0] + Join(pieces[1..], []);
    } else if |pieces| == 1 {
      assert Concat(pieces[1..]) == [];
      assert pieces[0] + [] == pieces[0];
    }
  }

  // ---------------------------------------------------------------------
  // ReplaceAll and SplitAfter
  // ---------------------------------------------------------------------

  /**
   * Go's strings.ReplaceAll for a non-empty `pat`: scanning left to right,
   * each non-overlapping occurrence of `pat` is replaced by `repl`.
   */
  function ReplaceAll(s: string, pat: string, repl: string): (r: string)
    requires pat != []
    decreases |s|
  {
    var i := Index(s, pat);
    if i == -1 then s else s[..i] + repl + ReplaceAll(s[i + |pat|..], pat, repl)
  }

  /**
   * `p` followed by `pat` has its first occurrence of `pat` at the join:
   * neither `p` itself nor its end together with a prefix of `pat` forms `pat`.
   */
  predicate CleanBefore(p: string, pat: string) {
    Index(p + pat, pat) == |p|
  }

  /**
   * An occurrence anywhere in the text, not only a leading one, is replaced,
   * as long as the text before it does not run into it.
   */
  lemma ReplaceAllAt(a: string, pat: string, b: string, repl: string)
    requires pat != [] && CleanBefore(a, pat)
    ensures ReplaceAll(a + pat + b, pat, repl) == a + repl + ReplaceAll(b, pat, repl)
  {
    var s := a + pat + b;
    assert s == (a + pat) + b;
    IndexExtend(a + pat, b, pat);
    assert s[..|a|] == a;
    assert s[|a| + |pat|..] == b;
  }

  lemma CleanBeforeNotContains(p: string, pat: string)
    requires pat != [] && CleanBefore(p, pat)
    ensures !Contains(p, pat)
  {
    forall k | 0 <= k <= |p| - |pat| ensures !OccursAt(p, pat, k) {
      OccursAtAppend(p, pat, pat, k);
    }
  }

  /**
   * Replacing is the inverse of joining: text made of pieces that do not run
   * into the separator, joined by it, has every separator replaced.
   */
  lemma {:induction false} ReplaceAllJoin(pieces: seq<string>, pat: string, repl: string)
    requires pat != []
    requires forall k :: 0 <= k < |pieces| ==> CleanBefore(pieces[k], pat)
    ensures ReplaceAll(Join(pieces, pat), pat, repl) == Join(pieces, repl)
  {
    if |pieces| == 1 {
      CleanBeforeNotContains(pieces[0], pat);
    } else if |pieces| > 1 {
      assert CleanBefore(pieces[0], pat);
      ReplaceAllAt(pieces[0], pat, Join(pieces[1..], pat), repl);
      ReplaceAllJoin(pieces[1..], pat, repl);
    }
  }

  /**
   * Go's strings.SplitAfter for a non-empty `sep`: cuts `s` after each
   * non-overlapping occurrence of `sep`, scanning left to right. Every piece
   * but the last ends with its own first occurrence of `sep`; the last holds
   * none and may be empty; together the pieces are `s` again.
   */
  function SplitAfter(s: string, sep: string): (r: seq<string>)
    requires sep != []
    ensures |r| >= 1
    ensures Concat(r) == s
    ensures forall k :: 0 <= k < |r| - 1 ==> EndsAtFirst(r[k], sep)
    ensures !Contains(r[|r| - 1], sep)
    decreases |s|
  {
    var i := Index(s, sep);
    if i == -1 then
      assert Concat([s][1..]) == [];
      [s]
    else
      var cut := i + |sep|;
      var piece := s[..cut];
      assert s == piece + s[cut..];
      IndexTake(s, sep, cut);
      var rest := SplitAfter(s[cut..], sep);
      ConcatCons(piece, rest);
      [piece] + rest
  }

  /** The shape SplitAfter produces: its own pieces. */
  predicate SplitShape(pieces: seq<string>, sep: string) {
    && |pieces| >= 1
    && (forall k :: 0 <= k < |pieces| - 1 ==> EndsAtFirst(pieces[k], sep))
    && !Contains(pieces[|pieces| - 1], sep)
  }

  /**
   * SplitAfter is the inverse of Concat on pieces of the shape it produces,
   * so the pieces are determined by the text.
   */
  lemma {:induction false} SplitAfterConcat(pieces: seq<string>, sep: string)
    requires sep != [] && SplitShape(pieces, sep)
    ensures SplitAfter(Concat(pieces), sep) == pieces
  {
    if |pieces| == 1 {
      assert Concat(pieces) == pieces[0] + [];
      assert pieces[0] + [] == pieces[0];
    } else {
      var p := pieces[0];
      var rest := Concat(pieces[1..]);
      IndexExtend(p, rest, sep);
      assert (p + rest)[|p|..] == rest;
      assert (p + rest)[..|p|] == p;
      assert SplitShape(pieces[1..], sep);
      SplitAfterConcat(pieces[1..], sep);
      assert pieces == [p] + pieces[1..];
    }
  }
}
