/** Sequence vocabulary shared by the model: optional values, Python's `s[:n]`,
    order-preserving filtering and "first element that matches". */
module Seqs {

  datatype Option<+T> = None | Some(value: T)

  /** Python's slice `s[:n]`: the first n elements, or all of s when it is shorter. */
  function Take<T>(s: seq<T>, n: nat): (r: seq<T>)
    ensures |r| == if |s| <= n then |s| else n
    ensures r == s[..|r|]
  {
    if |s| <= n then s else s[..n]
  }

  /** The elements of s that satisfy p, in their original order
      (a list comprehension, or a loop that appends what passes a test). */
  function Filter<T>(s: seq<T>, p: T -> bool): (r: seq<T>)
    ensures |r| <= |s|
    ensures forall i :: 0 <= i < |r| ==> r[i] in s && p(r[i])
    ensures forall i :: 0 <= i < |s| && p(s[i]) ==> s[i] in r
    decreases |s|
  {
    if s == [] then []
    else
      assert s == s[..|s| - 1] + [s[|s| - 1]];
      Filter(s[..|s| - 1], p) + (if p(s[|s| - 1]) then [s[|s| - 1]] else [])
  }

  /** The positions in s of the elements that Filter keeps. */
  ghost function FilterIndices<T>(s: seq<T>, p: T -> bool): seq<nat>
    decreases |s|
  {
    if s == [] then []
    else FilterIndices(s[..|s| - 1], p) + (if p(s[|s| - 1]) then [|s| - 1] else [])
  }

  /** Filter keeps order and drops nothing that passes: the positions it keeps
      are strictly increasing, each kept element sits at its position, and every
      position whose element satisfies p is among them. */
  lemma FilterKeepsOrder<T>(s: seq<T>, p: T -> bool)
    ensures var idx := FilterIndices(s, p);
      && |idx| == |Filter(s, p)|
      && (forall k :: 0 <= k < |idx| ==> idx[k] < |s| && Filter(s, p)[k] == s[idx[k]])
      && (forall k, l :: 0 <= k < l < |idx| ==> idx[k] < idx[l])
      && (forall j :: 0 <= j < |s| && p(s[j]) ==> j in idx)
  {
    FilterIndicesPositions(s, p);
    FilterIndicesIncrease(s, p);
    FilterIndicesComplete(s, p);
  }

  lemma {:induction false} FilterIndicesPositions<T>(s: seq<T>, p: T -> bool)
    ensures |FilterIndices(s, p)| == |Filter(s, p)|
    ensures forall k :: 0 <= k < |FilterIndices(s, p)| ==>
      FilterIndices(s, p)[k] < |s| && Filter(s, p)[k] == s[FilterIndices(s, p)[k]]
    decreases |s|
  {
    if s != [] {
      var init, last := s[..|s| - 1], s[|s| - 1];
      FilterIndicesPositions(init, p);
      var rest, fi := FilterIndices(init, p), Filter(init, p);
      var idx, f := FilterIndices(s, p), Filter(s, p);
      assert idx == rest + (if p(last) then [|s| - 1] else []);
      assert f == fi + (if p(last) then [last] else []);
      forall k | 0 <= k < |idx|
        ensures idx[k] < |s| && f[k] == s[idx[k]]
      {
        if k < |rest| {
          assert idx[k] == rest[k] && f[k] == fi[k];
          assert init[rest[k]] == s[rest[k]];
        }
      }
    }
  }

  lemma {:induction false} FilterIndicesIncrease<T>(s: seq<T>, p: T -> bool)
    ensures forall k :: 0 <= k < |FilterIndices(s, p)| ==> FilterIndices(s, p)[k] < |s|
    ensures forall k, l :: 0 <= k < l < |FilterIndices(s, p)| ==> FilterIndices(s, p)[k] < FilterIndices(s, p)[l]
    decreases |s|
  {
    if s != [] {
      var init := s[..|s| - 1];
      FilterIndicesIncrease(init, p);
      var rest, idx := FilterIndices(init, p), FilterIndices(s, p);
      assert idx == rest + (if p(s[|s| - 1]) then [|s| - 1] else []);
      forall k, l | 0 <= k < l < |idx|
        ensures idx[k] < idx[l]
      {
        assert idx[k] == rest[k] && rest[k] < |init|;
        if l < |rest| {
          assert idx[l] == rest[l];
        }
      }
    }
  }

  lemma {:induction false} FilterIndicesComplete<T>(s: seq<T>, p: T -> bool)
    ensures forall j :: 0 <= j < |s| && p(s[j]) ==> j in FilterIndices(s, p)
    decreases |s|
  {
    if s != [] {
      var init := s[..|s| - 1];
      FilterIndicesComplete(init, p);
      var rest, idx := FilterIndices(init, p), FilterIndices(s, p);
      assert idx == rest + (if p(s[|s| - 1]) then [|s| - 1] else []);
      forall j | 0 <= j < |s| && p(s[j])
        ensures j in idx
      {
        if j < |init| {
          assert init[j] == s[j];
          assert j in rest;
        }
      }
    }
  }

  /** The first element of s that satisfies p, if there is one. */
  function First<T>(s: seq<T>, p: T -> bool): (r: Option<T>)
    ensures r.None? <==> forall i :: 0 <= i < |s| ==> !p(s[i])
    ensures r.Some? ==> exists i :: 0 <= i < |s| && s[i] == r.value && p(s[i]) && forall j :: 0 <= j < i ==> !p(s[j])
    decreases |s|
  {
    if s == [] then None
    else if p(s[0]) then Some(s[0])
    else
      var r := First(s[1..], p);
      assert forall i :: 0 <= i < |s| - 1 ==> s[1..][i] == s[i + 1];
      r
  }
}
