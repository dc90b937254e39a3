/**
 Generic sequence functions: the first element satisfying a predicate (the
 "first match wins" search used both for prefixes and for table rows) and an
 order-preserving filter (a Python list comprehension with an `if`).
 */
module Sequences {
  import opened Wrappers

  /** `sub` can be obtained from `s` by deleting elements, keeping the order. */
  ghost predicate IsSubsequence<T>(sub: seq<T>, s: seq<T>)
    decreases |s|
  {
    if |sub| == 0 then true
    else if |s| == 0 then false
    else
      (sub[|sub| - 1] == s[|s| - 1] && IsSubsequence(sub[..|sub| - 1], s[..|s| - 1]))
      || IsSubsequence(sub, s[..|s| - 1])
  }

  /** Index of the first element of `s` satisfying `p`, or `None` if there is none. */
  function FirstIndex<T>(s: seq<T>, p: T -> bool): (r: Option<nat>)
    ensures r.None? <==> forall i :: 0 <= i < |s| ==> !p(s[i])
    ensures r.Some? ==> r.value < |s| && p(s[r.value])
    ensures r.Some? ==> forall i :: 0 <= i < r.value ==> !p(s[i])
  {
    if |s| == 0 then None
    else if p(s[0]) then Some(0)
    else
      match FirstIndex(s[1..], p)
      case None => None
      case Some(k) => Some(k + 1)
  }

  /** The first index is determined by the predicate: any index that satisfies
      `p` and has no satisfying element before it is the one `FirstIndex` returns. */
  lemma FirstIndexUnique<T>(s: seq<T>, p: T -> bool, k: nat)
    requires k < |s| && p(s[k])
    requires forall i :: 0 <= i < k ==> !p(s[i])
    ensures FirstIndex(s, p) == Some(k)
  {
  }

  /** Looking further only matters when nothing in the front part satisfies `p`. */
  lemma FirstIndexAppend<T>(a: seq<T>, b: seq<T>, p: T -> bool)
    requires FirstIndex(a, p).Some?
    ensures FirstIndex(a + b, p) == FirstIndex(a, p)
  {
    var k := FirstIndex(a, p).value;
    assert (a + b)[k] == a[k];
    forall i | 0 <= i < k
      ensures !p((a + b)[i])
    {
      assert (a + b)[i] == a[i];
    }
    FirstIndexUnique(a + b, p, k);
  }

  /** The elements of `s` that satisfy `p`, in their original order. */
  function Filter<T(!new)>(s: seq<T>, p: T -> bool): (r: seq<T>)
    ensures |r| <= |s|
    ensures forall i :: 0 <= i < |r| ==> p(r[i])
    ensures forall x :: multiset(r)[x] == if p(x) then multiset(s)[x] else 0
    ensures IsSubsequence(r, s)
    decreases |s|
  {
    if |s| == 0 then []
    else
      var init := s[..|s| - 1];
      var last := s[|s| - 1];
      assert s == init + [last];
      var front := Filter(init, p);
      if p(last) then
        assert (front + [last])[..|front|] == front;
        front + [last]
      else
        front
  }

  /** Filtering distributes over concatenation: each element is kept or dropped
      on its own, independently of its neighbours. */
  lemma {:induction false} FilterAppend<T(!new)>(a: seq<T>, b: seq<T>, p: T -> bool)
    ensures Filter(a + b, p) == Filter(a, p) + Filter(b, p)
    decreases |b|
  {
    if |b| == 0 {
      assert a + b == a;
    } else {
      var init := b[..|b| - 1];
      var last := b[|b| - 1];
      assert (a + b)[..|a + b| - 1] == a + init;
      assert (a + b)[|a + b| - 1] == last;
      FilterAppend(a, init, p);
    }
  }

  /** One more element at the end is kept, at the end, exactly when it
      satisfies `p`. */
  lemma FilterStep<T(!new)>(s: seq<T>, x: T, p: T -> bool)
    ensures Filter(s + [x], p) == Filter(s, p) + if p(x) then [x] else []
  {
    assert [x][..0] == [];
    FilterAppend(s, [x], p);
  }
}
