/** Facts about sequences and index lists shared by the other modules. */
module Sequences {

  /** No element occurs twice. */
  predicate Distinct<T(==)>(s: seq<T>) {
    forall i, j :: 0 <= i < j < |s| ==> s[i] != s[j]
  }

  /** The position of the first `x` in `s`, or `|s|` when there is none. */
  function IndexOf<T(==)>(s: seq<T>, x: T): (i: nat)
    ensures i <= |s|
    ensures i < |s| ==> s[i] == x
    ensures forall k :: 0 <= k < i ==> s[k] != x
  {
    if s == [] then 0 else if s[0] == x then 0 else 1 + IndexOf(s[1..], x)
  }

  lemma IndexOfFound<T>(s: seq<T>, x: T)
    ensures IndexOf(s, x) < |s| <==> x in s
  {}

  /** Growing a prefix by one element. */
  lemma PrefixStep<T>(s: seq<T>, i: nat)
    requires i < |s|
    ensures s[..i + 1] == s[..i] + [s[i]] && s[..i + 1][..i] == s[..i]
    ensures forall j :: 0 <= j < i ==> s[j] in s[..i]
  {
    assert forall j :: 0 <= j < i ==> s[..i][j] == s[j];
  }

  // ---------------------------------------------------------------------------------------
  // Index lists

  /** The indices `0 .. n-1`. */
  function Range(n: nat): (r: seq<nat>)
    ensures |r| == n && forall i :: 0 <= i < n ==> r[i] == i
  {
    if n == 0 then [] else Range(n - 1) + [n - 1]
  }

  lemma RangeFacts(n: nat)
    ensures forall x: int :: x in Range(n) <==> 0 <= x < n
    ensures StrictlyIncreasing(Range(n))
  {
    forall x: int | 0 <= x < n ensures x in Range(n) {
      assert Range(n)[x] == x;
    }
  }

  /** The elements of `idx` that are in `keep`, in their order. */
  function Filter(idx: seq<nat>, keep: set<nat>): (r: seq<nat>)
    ensures |r| <= |idx|
    decreases |idx|
  {
    if idx == [] then []
    else Filter(idx[..|idx| - 1], keep) + (if idx[|idx| - 1] in keep then [idx[|idx| - 1]] else [])
  }

  /** The filter keeps exactly the listed elements that are in `keep`. */
  lemma {:induction false} FilterMembers(idx: seq<nat>, keep: set<nat>)
    ensures forall x :: x in Filter(idx, keep) <==> x in idx && x in keep
    decreases |idx|
  {
    if idx != [] {
      var init := idx[..|idx| - 1];
      FilterMembers(init, keep);
      assert idx == init + [idx[|idx| - 1]];
    }
  }

  predicate StrictlyIncreasing(s: seq<nat>) {
    forall k, l :: 0 <= k < l < |s| ==> s[k] < s[l]
  }

  /** In an increasing list an element does not occur before its position. */
  lemma IncreasingFresh(s: seq<nat>, t: nat)
    requires StrictlyIncreasing(s) && t < |s|
    ensures s[t] !in s[..t]
  {}

  lemma {:induction false} FilterIncreasing(idx: seq<nat>, keep: set<nat>)
    requires StrictlyIncreasing(idx)
    ensures StrictlyIncreasing(Filter(idx, keep))
    decreases |idx|
  {
    if idx != [] {
      var init := idx[..|idx| - 1];
      var last := idx[|idx| - 1];
      FilterIncreasing(init, keep);
      FilterMembers(init, keep);
      var f := Filter(init, keep);
      forall x | x in f ensures x < last {
        var k :| 0 <= k < |init| && init[k] == x;
      }
      if last in keep {
        var r := f + [last];
        forall k, l | 0 <= k < l < |r| ensures r[k] < r[l] {
          if l == |f| {
            assert r[k] in f;
          }
        }
      }
    }
  }

  /** The set of a list's elements. */
  function Elems(s: seq<nat>): set<nat> {
    set x: nat | x in s
  }

  /** A list of distinct indices has as many elements as its set. */
  lemma {:induction false} DistinctCard(s: seq<nat>)
    requires Distinct(s)
    ensures |Elems(s)| == |s|
    decreases |s|
  {
    if s != [] {
      var init := s[..|s| - 1];
      assert Distinct(init);
      DistinctCard(init);
      var last := s[|s| - 1];
      assert s == init + [last];
      assert Elems(s) == Elems(init) + {last};
      assert last !in Elems(init);
    }
  }
}
