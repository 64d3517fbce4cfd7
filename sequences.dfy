/**
 * Sequence vocabulary shared by the reconciliation code: distinctness,
 * first-appearance de-duplication (what appending to a list "if not already
 * in it", or inserting into a Python dict, produces), order-preserving
 * subsequences and repetition.
 */
module Sequences {

  predicate Distinct<T(==)>(s: seq<T>) {
    forall i, j :: 0 <= i < j < |s| ==> s[i] != s[j]
  }

  function Elems<T>(s: seq<T>): set<T> {
    set x | x in s
  }

  function Repeat<T>(x: T, n: nat): (r: seq<T>)
    ensures |r| == n
    ensures forall i :: 0 <= i < n ==> r[i] == x
  {
    if n == 0 then [] else Repeat(x, n - 1) + [x]
  }

  /** The elements of `s` in order of first appearance, each once. */
  function Dedup<T(==)>(s: seq<T>): (r: seq<T>)
    ensures Distinct(r)
    ensures forall i :: 0 <= i < |r| ==> r[i] in s
    ensures forall i :: 0 <= i < |s| ==> s[i] in r
    ensures |r| <= |s|
    decreases |s|
  {
    if s == [] then []
    else
      var p := Dedup(s[..|s| - 1]);
      if s[|s| - 1] in p then p else p + [s[|s| - 1]]
  }

  /** Position of the first occurrence of `x` in `s`. */
  function FirstIndex<T(==)>(s: seq<T>, x: T): (i: nat)
    requires x in s
    ensures i < |s| && s[i] == x && x !in s[..i]
  {
    if s[0] == x then 0
    else
      assert x in s[1..];
      var j := FirstIndex(s[1..], x);
      assert s[..j + 1] == [s[0]] + s[1..][..j];
      1 + j
  }

  lemma FirstIndexUnique<T>(s: seq<T>, x: T, i: nat)
    requires i < |s| && s[i] == x && x !in s[..i]
    ensures FirstIndex(s, x) == i
  {
  }

  lemma FirstIndexExtend<T>(s: seq<T>, y: T, x: T)
    requires x in s
    ensures FirstIndex(s + [y], x) == FirstIndex(s, x)
  {
    var i := FirstIndex(s, x);
    assert (s + [y])[..i] == s[..i];
    FirstIndexUnique(s + [y], x, i);
  }

  /**
   * Dedup keeps the order of first appearance: an element that occurs
   * earlier in `s` comes earlier in `Dedup(s)`.
   */
  lemma {:induction false} DedupFirstAppearanceOrder<T>(s: seq<T>)
    ensures forall i, j :: 0 <= i < j < |Dedup(s)| ==>
              FirstIndex(s, Dedup(s)[i]) < FirstIndex(s, Dedup(s)[j])
    decreases |s|
  {
    if s != [] {
      var s', y := s[..|s| - 1], s[|s| - 1];
      assert s == s' + [y];
      DedupFirstAppearanceOrder(s');
      var p := Dedup(s');
      forall x | x in p
        ensures FirstIndex(s, x) == FirstIndex(s', x) < |s'|
      {
        FirstIndexExtend(s', y, x);
      }
      if y !in p {
        assert s[..|s'|] == s';
        FirstIndexUnique(s, y, |s'|);
      }
    }
  }

  lemma {:induction false} DistinctElemsCard<T>(s: seq<T>)
    requires Distinct(s)
    ensures |Elems(s)| == |s|
    decreases |s|
  {
    if s != [] {
      var s' := s[..|s| - 1];
      DistinctElemsCard(s');
      assert Elems(s) == Elems(s') + {s[|s| - 1]};
      assert s[|s| - 1] !in Elems(s');
    }
  }

  /** A sequence has as many different elements as Dedup keeps. */
  lemma DedupCard<T>(s: seq<T>)
    ensures |Dedup(s)| == |Elems(s)|
  {
    DistinctElemsCard(Dedup(s));
    assert Elems(Dedup(s)) == Elems(s);
  }

  lemma DistinctLastNotInPrefix<T>(s: seq<T>)
    requires Distinct(s) && s != []
    ensures s[|s| - 1] !in s[..|s| - 1]
    ensures Distinct(s[..|s| - 1])
  {
    var p := s[..|s| - 1];
    forall k | 0 <= k < |p| ensures p[k] != s[|s| - 1] {
      assert p[k] == s[k];
    }
  }

  /** Dedup drops nothing exactly when the sequence has no repeats. */
  lemma {:induction false} DedupFullIffDistinct<T>(s: seq<T>)
    ensures |Dedup(s)| == |s| <==> Distinct(s)
    ensures Distinct(s) ==> Dedup(s) == s
    decreases |s|
  {
    if s != [] {
      var s', y := s[..|s| - 1], s[|s| - 1];
      DedupFullIffDistinct(s');
      assert s == s' + [y];
      if Distinct(s) {
        DistinctLastNotInPrefix(s);
      }
      if |Dedup(s)| == |s| {
        DistinctExtend(s', y);
      }
    }
  }

  lemma DistinctExtend<T>(s: seq<T>, y: T)
    requires Distinct(s) && y !in s
    ensures Distinct(s + [y])
  {
  }

  /** The elements of a set of a sequence never outnumber its positions. */
  lemma ElemsCardLe<T>(s: seq<T>)
    ensures |Elems(s)| <= |s|
    ensures |Elems(s)| == |s| <==> Distinct(s)
  {
    DedupCard(s);
    DedupFullIffDistinct(s);
  }

  lemma SubsetCardLe<T>(a: set<T>, b: set<T>)
    requires a <= b
    ensures |a| <= |b|
    ensures |a| == |b| ==> a == b
  {
    assert b == a + (b - a);
    assert a !! (b - a);
    if |a| == |b| {
      assert |b - a| == 0;
      assert b - a == {};
    }
  }

  /** `a` can be obtained from `b` by deleting elements. */
  predicate IsSubsequence<T(==)>(a: seq<T>, b: seq<T>)
    decreases |b|
  {
    if a == [] then true
    else if b == [] then false
    else if a[|a| - 1] == b[|b| - 1] then IsSubsequence(a[..|a| - 1], b[..|b| - 1])
    else IsSubsequence(a, b[..|b| - 1])
  }

  /** The elements of `s` that satisfy `p`, in order. */
  function Filter<T(==)>(s: seq<T>, p: T -> bool): (r: seq<T>)
    ensures |r| <= |s|
    ensures forall i :: 0 <= i < |r| ==> p(r[i]) && r[i] in s
    ensures forall i :: 0 <= i < |s| && p(s[i]) ==> s[i] in r
    decreases |s|
  {
    if s == [] then []
    else
      var r := Filter(s[..|s| - 1], p);
      if p(s[|s| - 1]) then r + [s[|s| - 1]] else r
  }

  lemma {:induction false} SubsequenceDropLast<T>(a: seq<T>, b: seq<T>)
    requires a != [] && IsSubsequence(a, b)
    ensures IsSubsequence(a[..|a| - 1], b)
    decreases |b|, 1
  {
    var a' := a[..|a| - 1];
    if b != [] {
      if a[|a| - 1] == b[|b| - 1] {
        SubsequenceExtend(a', b[..|b| - 1], b[|b| - 1]);
        assert b[..|b| - 1] + [b[|b| - 1]] == b;
      } else {
        SubsequenceDropLast(a, b[..|b| - 1]);
        SubsequenceExtend(a', b[..|b| - 1], b[|b| - 1]);
        assert b[..|b| - 1] + [b[|b| - 1]] == b;
      }
    }
  }

  lemma {:induction false} SubsequenceExtend<T>(a: seq<T>, b: seq<T>, x: T)
    requires IsSubsequence(a, b)
    ensures IsSubsequence(a, b + [x])
    decreases |b|, 2
  {
    assert (b + [x])[..|b|] == b;
    if a != [] && a[|a| - 1] == x {
      SubsequenceDropLast(a, b);
    }
  }

  lemma {:induction false} FilterIsSubsequence<T>(s: seq<T>, p: T -> bool)
    ensures IsSubsequence(Filter(s, p), s)
    decreases |s|
  {
    if s != [] {
      var s', x := s[..|s| - 1], s[|s| - 1];
      var r' := Filter(s', p);
      FilterIsSubsequence(s', p);
      if p(x) {
        assert (r' + [x])[..|r'|] == r';
      } else {
        SubsequenceExtend(r', s', x);
        assert s' + [x] == s;
      }
    }
  }

  lemma {:induction false} FilterDistinct<T>(s: seq<T>, p: T -> bool)
    requires Distinct(s)
    ensures Distinct(Filter(s, p))
    decreases |s|
  {
    if s != [] {
      DistinctLastNotInPrefix(s);
      FilterDistinct(s[..|s| - 1], p);
      if p(s[|s| - 1]) {
        DistinctExtend(Filter(s[..|s| - 1], p), s[|s| - 1]);
      }
    }
  }
}
