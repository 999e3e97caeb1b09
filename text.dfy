/** String operations of Python and JavaScript that the serialisers rely on. */
module Text {

  /** `''.join(parts)`. */
  function Concat(parts: seq<string>): (r: string)
    ensures parts == [] ==> r == ""
  {
    if parts == [] then "" else parts[0] + Concat(parts[1..])
  }

  /** Joining distributes over concatenating the lists of parts. */
  lemma {:induction false} ConcatAppend(a: seq<string>, b: seq<string>)
    ensures Concat(a + b) == Concat(a) + Concat(b)
  {
    if a != [] {
      ConcatAppend(a[1..], b);
      assert (a + b)[1..] == a[1..] + b;
    } else {
      assert a + b == b;
    }
  }

  /** `sep.join(parts)`. */
  function JoinWith(sep: string, parts: seq<string>): string
  {
    if parts == [] then "" else if |parts| == 1 then parts[0] else parts[0] + sep + JoinWith(sep, parts[1..])
  }

  /** `pat` occurs in `s` starting at index `i`. */
  predicate OccursAt(s: string, pat: string, i: nat)
  {
    i + |pat| <= |s| && s[i..i + |pat|] == pat
  }

  /** `pat in s`. */
  ghost predicate Contains(s: string, pat: string)
  {
    exists i: nat :: OccursAt(s, pat, i)
  }

  /**
   * `s.replace(pat, rep)` for a non-empty pattern: scanning left to right, every occurrence of
   * `pat` that does not overlap an earlier replaced one is replaced by `rep`.
   */
  function ReplaceAll(s: string, pat: string, rep: string): string
    requires |pat| > 0
    decreases |s|
  {
    if |s| < |pat| then s
    else if s[..|pat|] == pat then rep + ReplaceAll(s[|pat|..], pat, rep)
    else [s[0]] + ReplaceAll(s[1..], pat, rep)
  }

  /** Characters before the first occurrence of the pattern are copied unchanged. */
  lemma {:induction false} ReplaceAllPrefix(pre: string, rest: string, pat: string, rep: string)
    requires |pat| > 0
    requires forall i: nat :: i < |pre| ==> !OccursAt(pre + rest, pat, i)
    ensures ReplaceAll(pre + rest, pat, rep) == pre + ReplaceAll(rest, pat, rep)
    decreases |pre|
  {
    if pre != [] {
      var s := pre + rest;
      assert !OccursAt(s, pat, 0);
      assert s[1..] == pre[1..] + rest;
      forall i: nat | i < |pre[1..]|
        ensures !OccursAt(pre[1..] + rest, pat, i)
      {
        assert !OccursAt(s, pat, i + 1);
        OccursAtTail(s, pat, i);
      }
      ReplaceAllPrefix(pre[1..], rest, pat, rep);
      if |s| >= |pat| {
        assert s[..|pat|] != pat;
      }
      assert ReplaceAll(s, pat, rep) == [s[0]] + ReplaceAll(s[1..], pat, rep);
      assert [s[0]] + (pre[1..] + ReplaceAll(rest, pat, rep)) == pre + ReplaceAll(rest, pat, rep);
    } else {
      assert pre + rest == rest;
    }
  }

  /** An occurrence in the tail of a non-empty string is an occurrence one place later in the string. */
  lemma OccursAtTail(s: string, pat: string, i: nat)
    requires |s| > 0
    ensures OccursAt(s[1..], pat, i) <==> OccursAt(s, pat, i + 1)
  {
    if i + |pat| <= |s[1..]| {
      assert s[1..][i..i + |pat|] == s[i + 1..i + 1 + |pat|];
    }
  }

  /** A string without the pattern is left as it is. */
  lemma {:induction false} ReplaceAllAbsent(s: string, pat: string, rep: string)
    requires |pat| > 0 && !Contains(s, pat)
    ensures ReplaceAll(s, pat, rep) == s
  {
    assert s + [] == s;
    ReplaceAllPrefix(s, [], pat, rep);
  }

  /** A string holding the pattern exactly once, at `|pre|`, gets `rep` in its place. */
  lemma {:induction false} ReplaceAllOnce(pre: string, post: string, pat: string, rep: string)
    requires |pat| > 0
    requires forall i: nat :: i < |pre| ==> !OccursAt(pre + pat + post, pat, i)
    requires !Contains(post, pat)
    ensures ReplaceAll(pre + pat + post, pat, rep) == pre + rep + post
  {
    var tail := pat + post;
    assert pre + pat + post == pre + tail;
    ReplaceAllPrefix(pre, tail, pat, rep);
    ReplaceAllAtStart(pat, post, rep);
    ReplaceAllAbsent(post, pat, rep);
    assert pre + (rep + post) == pre + rep + post;
  }

  /** An occurrence at the very start is replaced, and the scan goes on after it. */
  lemma {:induction false} ReplaceAllAtStart(pat: string, post: string, rep: string)
    requires |pat| > 0
    ensures ReplaceAll(pat + post, pat, rep) == rep + ReplaceAll(post, pat, rep)
  {
    var tail := pat + post;
    assert tail[..|pat|] == pat;
    assert tail[|pat|..] == post;
  }

  /** Python's `str(n)` for an integer: optional minus sign, then decimal digits. */
  function IntToString(n: int): (r: string)
    ensures |r| > 0
  {
    if n < 0 then "-" + NatToString(-n) else NatToString(n)
  }

  function NatToString(n: nat): (r: string)
    ensures |r| > 0
    ensures forall c :: c in r ==> '0' <= c <= '9'
  {
    if n < 10 then [Digit(n)] else NatToString(n / 10) + [Digit(n % 10)]
  }

  function Digit(d: nat): (c: char)
    requires d < 10
    ensures '0' <= c <= '9'
  {
    ['0', '1', '2', '3', '4', '5', '6', '7', '8', '9'][d]
  }
}
