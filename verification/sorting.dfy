/** A stable sort by a caller-given "sorts no later than" relation: the model
    of `Array.prototype.sort` with a comparator and of a store's `sortBy`,
    both stable in current JavaScript engines. */
module Sorting {

  /** le is total and transitive: a comparator that sorts consistently. */
  ghost predicate TotalPreorder<T(!new)>(le: (T, T) -> bool) {
    && (forall a, b :: le(a, b) || le(b, a))
    && (forall a, b, c :: le(a, b) && le(b, c) ==> le(a, c))
  }

  predicate SortedBy<T>(xs: seq<T>, le: (T, T) -> bool) {
    forall i, j :: 0 <= i < j < |xs| ==> le(xs[i], xs[j])
  }

  /** Inserts x in front of the first element it sorts no later than, so that x
      stays ahead of the equal elements that followed it. */
  function InsertBy<T>(x: T, xs: seq<T>, le: (T, T) -> bool): (r: seq<T>)
    ensures multiset(r) == multiset(xs) + multiset{x}
    ensures |r| == |xs| + 1
  {
    if xs == [] then [x]
    else if le(x, xs[0]) then [x] + xs
    else
      assert xs == [xs[0]] + xs[1..];
      [xs[0]] + InsertBy(x, xs[1..], le)
  }

  lemma {:induction false} InsertBySorted<T(!new)>(x: T, xs: seq<T>, le: (T, T) -> bool)
    ensures TotalPreorder(le) && SortedBy(xs, le) ==> SortedBy(InsertBy(x, xs, le), le)
  {
    if TotalPreorder(le) && SortedBy(xs, le) && xs != [] && !le(x, xs[0]) {
      assert SortedBy(xs[1..], le);
      InsertBySorted(x, xs[1..], le);
      var r := InsertBy(x, xs, le);
      var t := InsertBy(x, xs[1..], le);
      assert le(xs[0], x);
      forall j | 0 <= j < |t|
        ensures le(xs[0], t[j])
      {
        assert t[j] in multiset(t);
        assert t[j] == x || t[j] in multiset(xs[1..]);
        if t[j] != x {
          var k :| 0 <= k < |xs[1..]| && xs[1..][k] == t[j];
          assert xs[1..][k] == xs[k + 1];
        }
      }
      assert r == [xs[0]] + t;
    }
  }

  /** The sorted rearrangement of xs: a permutation, ordered whenever le is a
      total preorder. */
  function SortBy<T(!new)>(xs: seq<T>, le: (T, T) -> bool): (r: seq<T>)
    ensures multiset(r) == multiset(xs)
    ensures |r| == |xs|
    ensures TotalPreorder(le) ==> SortedBy(r, le)
  {
    if xs == [] then []
    else
      var rest := SortBy(xs[1..], le);
      InsertBySorted(xs[0], rest, le);
      assert xs == [xs[0]] + xs[1..];
      InsertBy(xs[0], rest, le)
  }

  /** `xs.slice(0, n)`: the first n elements, or all of them. */
  function Take<T>(xs: seq<T>, n: nat): (r: seq<T>)
    ensures |r| == if |xs| < n then |xs| else n
    ensures r == xs[..|r|]
  {
    if |xs| < n then xs else xs[..n]
  }

  /** `arr.reverse()`. */
  function Reverse<T>(xs: seq<T>): (r: seq<T>)
    ensures |r| == |xs|
    ensures forall i :: 0 <= i < |xs| ==> r[i] == xs[|xs| - 1 - i]
    ensures multiset(r) == multiset(xs)
  {
    if xs == [] then []
    else
      assert xs == [xs[0]] + xs[1..];
      Reverse(xs[1..]) + [xs[0]]
  }

  /** Reversing an ascending sequence gives a descending one. */
  lemma ReverseSorted<T>(xs: seq<T>, le: (T, T) -> bool)
    requires SortedBy(xs, le)
    ensures forall i, j :: 0 <= i < j < |xs| ==> le(Reverse(xs)[j], Reverse(xs)[i])
  {
  }

  /** What a prefix of a sorted sequence leaves out sorts no earlier than
      anything in the prefix. */
  lemma PrefixOfSorted<T>(s: seq<T>, n: nat, le: (T, T) -> bool)
    requires SortedBy(s, le) && n <= |s|
    ensures multiset(s[..n]) <= multiset(s)
    ensures forall x :: x in multiset(s) - multiset(s[..n]) ==> forall i :: 0 <= i < n ==> le(s[i], x)
  {
    assert s == s[..n] + s[n..];
    assert multiset(s) == multiset(s[..n]) + multiset(s[n..]);
    forall x | x in multiset(s) - multiset(s[..n])
      ensures forall i :: 0 <= i < n ==> le(s[i], x)
    {
      assert x in multiset(s[n..]);
      var j :| 0 <= j < |s| - n && s[n..][j] == x;
      assert s[n + j] == x;
    }
  }
}
