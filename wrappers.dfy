/** Small helpers shared by the model: Swift's `Optional` and the two
    `Sequence` operations the source leans on everywhere,
    `firstIndex(where:)` and a `reduce` that sums an integer projection. */
module Wrappers {

  /** Swift's `Optional<T>`: `.none` or `.some(value)`. */
  datatype Option<+T> = None | Some(value: T) {
    function GetOr(default: T): T {
      match this
      case Some(v) => v
      case None => default
    }
  }

  /** `firstIndex(where: p)`: the lowest index whose element satisfies `p`,
      or `None` when no element does. */
  function FirstWhere<T>(s: seq<T>, p: T -> bool): (r: Option<nat>)
    ensures r.Some? ==> r.value < |s| && p(s[r.value])
    ensures r.Some? ==> forall i :: 0 <= i < r.value ==> !p(s[i])
    ensures r.None? <==> forall i :: 0 <= i < |s| ==> !p(s[i])
  {
    if s == [] then None
    else if p(s[0]) then Some(0)
    else match FirstWhere(s[1..], p)
      case None => None
      case Some(i) => Some(i + 1)
  }

  /** `firstIndex(of: x)`: `firstIndex(where:)` with equality. */
  function FirstIndexOf<T(==)>(s: seq<T>, x: T): (r: Option<nat>)
    ensures r.Some? ==> r.value < |s| && s[r.value] == x
    ensures r.Some? ==> x !in s[..r.value]
    ensures r.None? <==> x !in s
  {
    var r := FirstWhere(s, y => y == x);
    assert r.Some? ==> forall i :: 0 <= i < r.value ==> s[..r.value][i] != x;
    r
  }

  /** `reduce(0) { $0 + f($1) }`. */
  function SumOf<T>(s: seq<T>, f: T -> int): int
  {
    if s == [] then 0 else f(s[0]) + SumOf(s[1..], f)
  }

  lemma {:induction false} SumOfRemove<T>(s: seq<T>, i: nat, f: T -> int)
    requires i < |s|
    ensures SumOf(s, f) == f(s[i]) + SumOf(s[..i] + s[i + 1..], f)
  {
    if i > 0 {
      SumOfRemove(s[1..], i - 1, f);
      assert s[1..][..i - 1] + s[1..][i..] == (s[..i] + s[i + 1..])[1..];
    } else {
      assert s[..i] + s[i + 1..] == s[1..];
    }
  }

  /** Taking out the element at `i` takes one copy of it out of the multiset. */
  lemma MultisetRemove<T>(s: seq<T>, i: nat)
    requires i < |s|
    ensures multiset(s[..i] + s[i + 1..]) == multiset(s) - multiset{s[i]}
  {
    assert s == s[..i] + [s[i]] + s[i + 1..];
  }

  /** A sum does not depend on the order of its terms. */
  lemma {:induction false} SumOfPermutation<T>(a: seq<T>, b: seq<T>, f: T -> int)
    requires multiset(a) == multiset(b)
    ensures SumOf(a, f) == SumOf(b, f)
  {
    if a == [] {
      assert |b| == |multiset(b)| == 0;
    } else {
      assert a[0] in multiset(b);
      var i :| 0 <= i < |b| && b[i] == a[0];
      MultisetRemove(a, 0);
      MultisetRemove(b, i);
      assert a[..0] + a[1..] == a[1..];
      SumOfPermutation(a[1..], b[..i] + b[i + 1..], f);
      SumOfRemove(b, i, f);
    }
  }

  /** `xs.filter(p).count`. */
  function CountWhere<T>(s: seq<T>, p: T -> bool): (n: nat)
    ensures n <= |s|
    ensures n == 0 <==> forall i :: 0 <= i < |s| ==> !p(s[i])
  {
    if s == [] then 0 else (if p(s[0]) then 1 else 0) + CountWhere(s[1..], p)
  }

  /** No element occurs twice. */
  predicate NoDuplicates<T(==)>(s: seq<T>)
  {
    forall i, j :: 0 <= i < j < |s| ==> s[i] != s[j]
  }

  /** `compactMap`, written from the end as a loop that appends builds it. */
  function CompactMap<A, B>(s: seq<A>, f: A -> Option<B>): seq<B>
    decreases |s|
  {
    if s == [] then []
    else
      var init := CompactMap(s[..|s| - 1], f);
      match f(s[|s| - 1])
      case None => init
      case Some(b) => init + [b]
  }

  /** An element is in a `compactMap` iff some input maps to it. */
  lemma {:induction false} CompactMapIn<A, B>(s: seq<A>, f: A -> Option<B>, b: B)
    ensures b in CompactMap(s, f) <==> exists x :: x in s && f(x) == Some(b)
    decreases |s|
  {
    if s != [] {
      var n := |s| - 1;
      CompactMapIn(s[..n], f, b);
      assert s == s[..n] + [s[n]];
      if exists x :: x in s && f(x) == Some(b) {
        var x :| x in s && f(x) == Some(b);
        if x != s[n] {
          assert x in s[..n];
        }
      }
    }
  }

  /** The positions whose element `f` keeps, in increasing order. */
  function KeptIndices<A, B>(s: seq<A>, f: A -> Option<B>): seq<nat>
    decreases |s|
  {
    if s == [] then []
    else
      var init := KeptIndices(s[..|s| - 1], f);
      if f(s[|s| - 1]).Some? then init + [|s| - 1] else init
  }

  /** A `compactMap` is, position by position, the images of the kept
      elements taken in input order: one entry per element `f` keeps, none
      repeated, none reordered. */
  lemma {:induction false} CompactMapOrder<A, B>(s: seq<A>, f: A -> Option<B>)
    ensures |KeptIndices(s, f)| == |CompactMap(s, f)|
    ensures forall i :: 0 <= i < |KeptIndices(s, f)| ==>
      KeptIndices(s, f)[i] < |s| && f(s[KeptIndices(s, f)[i]]) == Some(CompactMap(s, f)[i])
    ensures forall i, j :: 0 <= i < j < |KeptIndices(s, f)| ==> KeptIndices(s, f)[i] < KeptIndices(s, f)[j]
    ensures forall k :: 0 <= k < |s| && f(s[k]).Some? ==> k in KeptIndices(s, f)
    decreases |s|
  {
    if s != [] {
      var n := |s| - 1;
      var init := s[..n];
      CompactMapOrder(init, f);
      assert forall k :: 0 <= k < n ==> init[k] == s[k];
      var idx := KeptIndices(s, f);
      var r := CompactMap(s, f);
      var idx0 := KeptIndices(init, f);
      var r0 := CompactMap(init, f);
      if f(s[n]).Some? {
        assert idx == idx0 + [n] && r == r0 + [f(s[n]).value];
        assert forall i :: 0 <= i < |idx0| ==> idx[i] == idx0[i] && r[i] == r0[i];
        assert idx[|idx0|] == n;
      } else {
        assert idx == idx0 && r == r0;
      }
    }
  }

  /** `flatMap(f)`: the concatenation of `f` over the elements, in order. */
  function FlatMap<A, B>(s: seq<A>, f: A -> seq<B>): seq<B>
  {
    if s == [] then [] else f(s[0]) + FlatMap(s[1..], f)
  }

  /** An element is in a `flatMap` iff it comes from some input's image. */
  lemma {:induction false} FlatMapIn<A, B>(s: seq<A>, f: A -> seq<B>, b: B)
    ensures b in FlatMap(s, f) <==> exists x :: x in s && b in f(x)
  {
    if s != [] {
      FlatMapIn(s[1..], f, b);
      if exists x :: x in s && b in f(x) {
        var x :| x in s && b in f(x);
        if x != s[0] {
          assert x in s[1..];
        }
      }
    }
  }

  /** `map(f)`. */
  function MapSeq<A, B>(s: seq<A>, f: A -> B): (r: seq<B>)
    ensures |r| == |s| && forall i :: 0 <= i < |s| ==> r[i] == f(s[i])
  {
    seq(|s|, i requires 0 <= i < |s| => f(s[i]))
  }

  /** In a sequence without duplicates every element occurs once. */
  lemma {:induction false} DistinctMultiplicity<T>(s: seq<T>, x: T)
    requires NoDuplicates(s)
    ensures multiset(s)[x] == if x in s then 1 else 0
  {
    if s != [] {
      assert NoDuplicates(s[1..]);
      DistinctMultiplicity(s[1..], x);
      assert s == [s[0]] + s[1..];
      assert s[0] !in s[1..];
    }
  }

  /** Two sequences without duplicates holding the same elements are
      permutations of each other. */
  lemma DistinctSameElements<T>(a: seq<T>, b: seq<T>)
    requires NoDuplicates(a) && NoDuplicates(b)
    requires forall x :: x in a <==> x in b
    ensures multiset(a) == multiset(b)
  {
    forall x
      ensures multiset(a)[x] == multiset(b)[x]
    {
      DistinctMultiplicity(a, x);
      DistinctMultiplicity(b, x);
    }
  }
}
