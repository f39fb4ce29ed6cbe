/**
 * Duplicate-free sequences and `[...new Set(s)]`: a JavaScript Set remembers the
 * order in which values were first added, so spreading it back into an array
 * keeps the first occurrence of every value, in input order.
 */
module Distinct {

  /** No value occurs twice in `s`. */
  predicate NoDuplicates<T(==,!new)>(s: seq<T>) {
    forall i, j :: 0 <= i < j < |s| ==> s[i] != s[j]
  }

  /**
   * `[...new Set(s)]`: the values of `s` are added to the set one by one, left to
   * right, and a value already in the set is skipped.
   */
  function Dedup<T(==,!new)>(s: seq<T>): (r: seq<T>)
    ensures NoDuplicates(r)
    ensures forall x :: x in r <==> x in s
    decreases |s|
  {
    if s == [] then []
    else
      var seen := Dedup(s[..|s| - 1]);
      var x := s[|s| - 1];
      if x in seen then seen else seen + [x]
  }

  /** The elements of `s` that are not in `xs`, in their order. */
  function Without<T(==,!new)>(s: seq<T>, xs: set<T>): (r: seq<T>)
    ensures forall x :: x in r <==> x in s && x !in xs
    ensures (forall x :: x in s ==> x in xs) ==> r == []
    decreases |s|
  {
    if s == [] then []
    else
      var init := Without(s[..|s| - 1], xs);
      var x := s[|s| - 1];
      if x in xs then init else init + [x]
  }

  /** A sequence that already has no duplicates comes out of the Set as it went in. */
  lemma {:induction false} DedupOfDistinct<T(!new)>(s: seq<T>)
    requires NoDuplicates(s)
    ensures Dedup(s) == s
    decreases |s|
  {
    if s != [] {
      var init := s[..|s| - 1];
      assert NoDuplicates(init);
      DedupOfDistinct(init);
      assert s[|s| - 1] !in init;
      assert init + [s[|s| - 1]] == s;
    }
  }

  /**
   * Adding more values to a Set never removes or reorders the ones already there:
   * `Dedup(a)` is a prefix of `Dedup(a + b)`.
   */
  lemma {:induction false} DedupPrefix<T(!new)>(a: seq<T>, b: seq<T>)
    ensures Dedup(a) <= Dedup(a + b)
    decreases |b|
  {
    if b != [] {
      var b' := b[..|b| - 1];
      assert (a + b)[..|a + b| - 1] == a + b';
      DedupPrefix(a, b');
    } else {
      assert a + b == a;
    }
  }

  /**
   * `[...new Set([...a, ...b])]` is the distinct values of `a` followed by the
   * distinct values of `b` that are not in `a`, each group in first-occurrence order.
   */
  lemma {:induction false} DedupAppend<T(!new)>(a: seq<T>, b: seq<T>)
    ensures Dedup(a + b) == Dedup(a) + Dedup(Without(b, set x | x in a))
    decreases |b|
  {
    var xs := set x | x in a;
    if b == [] {
      assert a + b == a;
    } else {
      var b' := b[..|b| - 1];
      var y := b[|b| - 1];
      assert (a + b)[..|a + b| - 1] == a + b';
      assert (a + b)[|a + b| - 1] == y;
      DedupAppend(a, b');
      var w' := Without(b', xs);
      if y in xs {
        assert y in Dedup(a + b');
      } else {
        assert Without(b, xs) == w' + [y];
        assert (w' + [y])[..|w' + [y]| - 1] == w';
        assert y in Dedup(a + b') <==> y in Dedup(w');
      }
    }
  }

  /** Adding the same values to a Set a second time changes nothing. */
  lemma {:induction false} DedupAbsorbs<T(!new)>(a: seq<T>, b: seq<T>)
    ensures Dedup(Dedup(a + b) + b) == Dedup(a + b)
  {
    var d := Dedup(a + b);
    DedupAppend(d, b);
    DedupOfDistinct(d);
    var rest := Without(b, set x | x in d);
    assert forall x :: x in b ==> x in d;
  }
}
