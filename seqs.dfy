/** Generic list operations the source uses: `filter`, `map`, `join` and the `splice` pair behind every move. */
module Seqs {
  import opened Wrappers

  /** `s.filter(p)` (JavaScript) or `[x for x in s if p(x)]` (Python). */
  function Filter<T>(p: T -> bool, s: seq<T>): (r: seq<T>)
    ensures |r| <= |s|
    ensures forall x :: x in r ==> x in s && p(x)
    ensures forall x :: x in s && p(x) ==> x in r
  {
    if s == [] then [] else (if p(s[0]) then [s[0]] else []) + Filter(p, s[1..])
  }

  /** `s.map(f)`. */
  function Map<A, B>(f: A -> B, s: seq<A>): (r: seq<B>)
    ensures |r| == |s|
    ensures forall i :: 0 <= i < |s| ==> r[i] == f(s[i])
  {
    seq(|s|, i requires 0 <= i < |s| => f(s[i]))
  }

  /** `r` is obtained from `s` by deleting elements, so it keeps their relative order. */
  ghost predicate IsSubsequence<T>(r: seq<T>, s: seq<T>)
    decreases |s|
  {
    r == [] || (s != [] && ((r[0] == s[0] && IsSubsequence(r[1..], s[1..])) || IsSubsequence(r, s[1..])))
  }

  /** Filtering deletes elements and never reorders the ones it keeps. */
  lemma {:induction false} FilterIsSubsequence<T>(p: T -> bool, s: seq<T>)
    ensures IsSubsequence(Filter(p, s), s)
  {
    if s != [] {
      FilterIsSubsequence(p, s[1..]);
      if p(s[0]) {
        assert Filter(p, s) == [s[0]] + Filter(p, s[1..]);
        assert Filter(p, s)[1..] == Filter(p, s[1..]);
      } else {
        assert Filter(p, s) == Filter(p, s[1..]);
      }
    }
  }

  /** Each element is kept with all its copies when it satisfies `p`, and dropped entirely otherwise. */
  lemma {:induction false} FilterCount<T>(p: T -> bool, s: seq<T>, x: T)
    ensures multiset(Filter(p, s))[x] == if p(x) then multiset(s)[x] else 0
  {
    if s != [] {
      FilterCount(p, s[1..], x);
      assert s == [s[0]] + s[1..];
      assert multiset(s) == multiset{s[0]} + multiset(s[1..]);
    }
  }

  /** `FilterCount` for every list and every element at once. */
  lemma FilterCounts<T>(p: T -> bool)
    ensures forall s: seq<T>, x: T {:trigger multiset(Filter(p, s))[x]} :: multiset(Filter(p, s))[x] == if p(x) then multiset(s)[x] else 0
  {
    forall s: seq<T>, x: T
      ensures multiset(Filter(p, s))[x] == if p(x) then multiset(s)[x] else 0
    {
      FilterCount(p, s, x);
    }
  }

  /** Filtering a list whose elements all satisfy `p` changes nothing. */
  lemma {:induction false} FilterAll<T>(p: T -> bool, s: seq<T>)
    requires forall x :: x in s ==> p(x)
    ensures Filter(p, s) == s
  {
    if s != [] {
      FilterAll(p, s[1..]);
      assert s == [s[0]] + s[1..];
    }
  }

  /** Filtering twice by the same predicate is filtering once. */
  lemma FilterIdempotent<T>(p: T -> bool, s: seq<T>)
    ensures Filter(p, Filter(p, s)) == Filter(p, s)
  {
    FilterAll(p, Filter(p, s));
  }

  /** Filtering distributes over concatenation. */
  lemma {:induction false} FilterAppend<T>(p: T -> bool, a: seq<T>, b: seq<T>)
    ensures Filter(p, a + b) == Filter(p, a) + Filter(p, b)
  {
    if a != [] {
      FilterAppend(p, a[1..], b);
      assert (a + b)[1..] == a[1..] + b;
    } else {
      assert a + b == b;
    }
  }

  /** Mapping both sides of a subsequence keeps it a subsequence. */
  lemma {:induction false} MapSubsequence<A, B>(f: A -> B, r: seq<A>, s: seq<A>)
    requires IsSubsequence(r, s)
    ensures IsSubsequence(Map(f, r), Map(f, s))
    decreases |s|
  {
    if r != [] {
      assert Map(f, s)[1..] == Map(f, s[1..]);
      if r[0] == s[0] && IsSubsequence(r[1..], s[1..]) {
        MapSubsequence(f, r[1..], s[1..]);
        assert Map(f, r)[1..] == Map(f, r[1..]);
      } else {
        MapSubsequence(f, r, s[1..]);
      }
    }
  }

  /** `s.splice(i, 1)`: the list without its element at `i`. */
  function RemoveAt<T>(s: seq<T>, i: nat): (r: seq<T>)
    requires i < |s|
    ensures |r| == |s| - 1
  {
    s[..i] + s[i + 1..]
  }

  /** `s.splice(i, 0, x)`: `x` inserted so that it lands at index `i`. */
  function InsertAt<T>(s: seq<T>, i: nat, x: T): (r: seq<T>)
    requires i <= |s|
    ensures |r| == |s| + 1 && r[i] == x
  {
    s[..i] + [x] + s[i..]
  }

  /** Removing an element takes exactly one copy of it out of the multiset. */
  lemma RemoveAtMultiset<T>(s: seq<T>, i: nat)
    requires i < |s|
    ensures multiset(RemoveAt(s, i)) + multiset{s[i]} == multiset(s)
  {
    assert s == s[..i] + [s[i]] + s[i + 1..];
  }

  /** Inserting an element adds exactly one copy of it to the multiset. */
  lemma InsertAtMultiset<T>(s: seq<T>, i: nat, x: T)
    requires i <= |s|
    ensures multiset(InsertAt(s, i, x)) == multiset(s) + multiset{x}
  {
    assert s == s[..i] + s[i..];
  }

  /** The reorder every move performs: take out the element at `from`, then insert it at `to`. */
  function Move<T>(s: seq<T>, from: nat, to: nat): (r: seq<T>)
    requires from < |s| && to < |s|
    ensures |r| == |s| && r[to] == s[from]
  {
    InsertAt(RemoveAt(s, from), to, s[from])
  }

  /** A move is a permutation: the same elements, each as often as before. */
  lemma MovePermutes<T>(s: seq<T>, from: nat, to: nat)
    requires from < |s| && to < |s|
    ensures multiset(Move(s, from, to)) == multiset(s)
  {
    RemoveAtMultiset(s, from);
    InsertAtMultiset(RemoveAt(s, from), to, s[from]);
  }

  /** Where every element ends up: the moved one at `to`, the ones in between shifted by one towards `from`. */
  lemma MoveAt<T>(s: seq<T>, from: nat, to: nat, k: nat)
    requires from < |s| && to < |s| && k < |s|
    ensures Move(s, from, to)[k] ==
      if k == to then s[from]
      else if from <= k < to then s[k + 1]
      else if to < k <= from then s[k - 1]
      else s[k]
  {
  }

  /** Moving an element onto its own position is a no-op. */
  lemma MoveSelf<T>(s: seq<T>, i: nat)
    requires i < |s|
    ensures Move(s, i, i) == s
  {
    assert forall k :: 0 <= k < |s| ==> Move(s, i, i)[k] == s[k] by {
      forall k | 0 <= k < |s| { MoveAt(s, i, i, k); }
    }
  }

  /** Moving from `i` to `j` and back from `j` to `i` restores the list. */
  lemma MoveBack<T>(s: seq<T>, i: nat, j: nat)
    requires i < |s| && j < |s|
    ensures Move(Move(s, i, j), j, i) == s
  {
    var t := Move(s, i, j);
    forall k | 0 <= k < |s|
      ensures Move(t, j, i)[k] == s[k]
    {
      MoveAt(t, j, i, k);
      if k == i {
        MoveAt(s, i, j, j);
      } else if j <= k < i {
        MoveAt(s, i, j, k + 1);
      } else if i < k <= j {
        MoveAt(s, i, j, k - 1);
      } else {
        MoveAt(s, i, j, k);
      }
    }
  }

  /**
   * The move as the source runs it: copy the list into a fresh array (`[...s]`), then
   * `splice(from, 1)` shifts the tail left over the hole and `splice(to, 0, moved)`
   * shifts the part from `to` on right by one and writes the moved element at `to`.
   */
  method SpliceMove<T>(s: seq<T>, from: nat, to: nat) returns (r: seq<T>)
    requires from < |s| && to < |s|
    ensures r == Move(s, from, to)
  {
    var a := new T[|s|](i requires 0 <= i < |s| => s[i]);
    var moved := a[from];
    CloseGap(a, from);
    OpenGap(a, to, moved);
    r := a[..];
    forall k | 0 <= k < |s|
      ensures r[k] == Move(s, from, to)[k]
    {
      MoveAt(s, from, to, k);
    }
  }

  /** `a.splice(from, 1)` on the array: the elements after `from` shift one place left; the last slot is spare. */
  method CloseGap<T>(a: array<T>, from: nat)
    requires from < a.Length
    modifies a
    ensures forall k :: 0 <= k < from ==> a[k] == old(a[k])
    ensures forall k :: from <= k < a.Length - 1 ==> a[k] == old(a[k + 1])
  {
    var i := from;
    while i + 1 < a.Length
      invariant from <= i < a.Length
      invariant forall k :: 0 <= k < from ==> a[k] == old(a[k])
      invariant forall k :: from <= k < i ==> a[k] == old(a[k + 1])
      invariant forall k :: i <= k < a.Length ==> a[k] == old(a[k])
    {
      a[i] := a[i + 1];
      i := i + 1;
    }
  }

  /** `a.splice(to, 0, x)` on the array: the elements from `to` shift one place right over the spare slot. */
  method OpenGap<T>(a: array<T>, to: nat, x: T)
    requires to < a.Length
    modifies a
    ensures forall k :: 0 <= k < to ==> a[k] == old(a[k])
    ensures a[to] == x
    ensures forall k :: to < k < a.Length ==> a[k] == old(a[k - 1])
  {
    var j := a.Length - 1;
    while j > to
      invariant to <= j <= a.Length - 1
      invariant forall k :: 0 <= k <= j ==> a[k] == old(a[k])
      invariant forall k :: j < k < a.Length ==> a[k] == old(a[k - 1])
    {
      a[j] := a[j - 1];
      j := j - 1;
    }
    a[to] := x;
  }

  /** The index of the first element that satisfies `p`, the element a `for … if … : return` loop stops at. */
  function FirstIndex<T>(s: seq<T>, p: T -> bool): (r: Option<nat>)
    ensures r.Some? ==> r.value < |s| && p(s[r.value]) && forall k :: 0 <= k < r.value ==> !p(s[k])
    ensures r.None? ==> forall k :: 0 <= k < |s| ==> !p(s[k])
  {
    if s == [] then None
    else if p(s[0]) then Some(0)
    else match FirstIndex(s[1..], p)
      case None => None
      case Some(i) => Some(i + 1)
  }

  /** When `s[i]` is the only element `p` rejects, filtering is `splice(i, 1)`. */
  lemma {:induction false} FilterRemovesOne<T>(p: T -> bool, s: seq<T>, i: nat)
    requires i < |s| && !p(s[i])
    requires forall k :: 0 <= k < |s| && k != i ==> p(s[k])
    ensures Filter(p, s) == RemoveAt(s, i)
  {
    var t := s[1..];
    if i == 0 {
      assert Filter(p, s) == Filter(p, t);
      assert forall x :: x in t ==> p(x) by {
        forall x | x in t ensures p(x) {
          var k :| 0 <= k < |t| && t[k] == x;
          assert s[k + 1] == x;
        }
      }
      FilterAll(p, t);
      assert RemoveAt(s, 0) == t;
    } else {
      assert Filter(p, s) == [s[0]] + Filter(p, t);
      assert forall k :: 0 <= k < |t| && k != i - 1 ==> p(t[k]) by {
        forall k | 0 <= k < |t| && k != i - 1 ensures p(t[k]) {
          assert t[k] == s[k + 1];
        }
      }
      FilterRemovesOne(p, t, i - 1);
      RemoveAtCons(s, i);
    }
  }

  lemma RemoveAtCons<T>(s: seq<T>, i: nat)
    requires 0 < i < |s|
    ensures RemoveAt(s, i) == [s[0]] + RemoveAt(s[1..], i - 1)
  {
    assert s[..i] == [s[0]] + s[1..][..i - 1];
    assert s[i + 1..] == s[1..][i..];
  }
}
