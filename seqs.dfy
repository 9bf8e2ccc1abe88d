/** `Array.prototype.filter` and `reverse` over Dafny sequences, with what they mean index by index. */
module Seqs {

  /** `s.filter(keep)`: the elements `keep` accepts, in their order. */
  function Filter<T>(s: seq<T>, keep: T -> bool): (r: seq<T>)
    ensures |r| <= |s|
  {
    if s == [] then [] else Filter(s[..|s| - 1], keep) + (if keep(s[|s| - 1]) then [s[|s| - 1]] else [])
  }

  /** The positions of `s` that `keep` accepts, in increasing order. */
  function KeptIndices<T>(s: seq<T>, keep: T -> bool): seq<nat> {
    if s == [] then [] else KeptIndices(s[..|s| - 1], keep) + (if keep(s[|s| - 1]) then [|s| - 1] else [])
  }

  predicate StrictlyIncreasing(xs: seq<nat>) {
    forall k, l :: 0 <= k < l < |xs| ==> xs[k] < xs[l]
  }

  /**
   * What a filter returns, without reference to how it is computed: the k-th result element is the
   * element at the k-th of the kept positions, which increase and are all accepted.
   */
  lemma {:induction false} FilterByIndices<T>(s: seq<T>, keep: T -> bool)
    ensures var r, idx := Filter(s, keep), KeptIndices(s, keep);
      && |idx| == |r|
      && StrictlyIncreasing(idx)
      && (forall k :: 0 <= k < |idx| ==> idx[k] < |s| && keep(s[idx[k]]) && r[k] == s[idx[k]])
  {
    if s != [] {
      var n := |s| - 1;
      var p := s[..n];
      FilterByIndices(p, keep);
      var idx := KeptIndices(p, keep);
      forall k | 0 <= k < |idx| ensures s[idx[k]] == p[idx[k]] {
      }
    }
  }

  /** Every accepted position is among the kept positions. */
  lemma {:induction false} KeptIndicesComplete<T>(s: seq<T>, keep: T -> bool)
    ensures forall i :: 0 <= i < |s| && keep(s[i]) ==> i in KeptIndices(s, keep)
  {
    if s != [] {
      var n := |s| - 1;
      var p := s[..n];
      KeptIndicesComplete(p, keep);
      forall i | 0 <= i < n && keep(s[i]) ensures i in KeptIndices(s, keep) {
        assert s[i] == p[i];
      }
    }
  }

  /** Every element `keep` accepts is kept. */
  lemma FilterKeeps<T>(s: seq<T>, keep: T -> bool, x: T)
    requires x in s && keep(x)
    ensures x in Filter(s, keep)
  {
    FilterByIndices(s, keep);
    KeptIndicesComplete(s, keep);
    var i :| 0 <= i < |s| && s[i] == x;
    var idx := KeptIndices(s, keep);
    var k :| 0 <= k < |idx| && idx[k] == i;
    assert Filter(s, keep)[k] == x;
  }

  /** An element is kept exactly when it is in the input and accepted. */
  lemma FilterMembership<T>(s: seq<T>, keep: T -> bool, x: T)
    ensures x in Filter(s, keep) <==> x in s && keep(x)
  {
    if x in s && keep(x) {
      FilterKeeps(s, keep, x);
    }
    if x in Filter(s, keep) {
      FilterByIndices(s, keep);
      var r := Filter(s, keep);
      var k :| 0 <= k < |r| && r[k] == x;
    }
  }

  /** A filter that accepts everything returns its input unchanged. */
  lemma {:induction false} FilterAll<T>(s: seq<T>, keep: T -> bool)
    requires forall x :: x in s ==> keep(x)
    ensures Filter(s, keep) == s
  {
    if s != [] {
      FilterAll(s[..|s| - 1], keep);
      assert s == s[..|s| - 1] + [s[|s| - 1]];
    }
  }

  /** `s.slice().reverse()`: the same elements, last one first. */
  function Reverse<T>(s: seq<T>): (r: seq<T>)
    ensures |r| == |s|
    ensures forall i :: 0 <= i < |s| ==> r[i] == s[|s| - 1 - i]
  {
    if s == [] then [] else [s[|s| - 1]] + Reverse(s[..|s| - 1])
  }

  /** A filter listed last-first: the element at the j-th kept position is the j-th counted from the end. */
  lemma ReverseFilterByIndices<T>(s: seq<T>, keep: T -> bool)
    ensures var r, idx := Reverse(Filter(s, keep)), KeptIndices(s, keep);
      && |idx| == |r|
      && StrictlyIncreasing(idx)
      && (forall j :: 0 <= j < |idx| ==> idx[j] < |s| && keep(s[idx[j]]) && r[|r| - 1 - j] == s[idx[j]])
  {
    FilterByIndices(s, keep);
    var f, idx := Filter(s, keep), KeptIndices(s, keep);
    var r := Reverse(f);
    forall j | 0 <= j < |idx| ensures r[|r| - 1 - j] == s[idx[j]] {
      assert r[|r| - 1 - j] == f[j];
    }
  }

  /** Reversing keeps exactly the same elements. */
  lemma ReverseMembership<T>(s: seq<T>, x: T)
    ensures x in Reverse(s) <==> x in s
  {
    var r := Reverse(s);
    if x in s {
      var i :| 0 <= i < |s| && s[i] == x;
      assert r[|s| - 1 - i] == x;
    }
  }
}
