/**
 * A JavaScript `Set` keeps its members in insertion order. The pending pool of
 * the loader is iterated in that order, so it is modelled as a sequence without
 * repetitions; these are the operations on it.
 */
module Pools {

  /** No element occurs twice: the sequence is an insertion-ordered set. */
  predicate Distinct<T(==)>(s: seq<T>) {
    s == [] || (s[0] !in s[1..] && Distinct(s[1..]))
  }

  /** `Set.prototype.delete`: drop the first occurrence of `x`, keeping the order of the rest. */
  function Without<T(==)>(s: seq<T>, x: T): (r: seq<T>)
    ensures x !in s ==> r == s
    ensures x in s ==> |r| == |s| - 1
  {
    if s == [] then []
    else if s[0] == x then s[1..]
    else [s[0]] + Without(s[1..], x)
  }

  /** Deleting `x` removes exactly `x`, and from an insertion-ordered set it removes one element. */
  lemma {:induction false} WithoutMembers<T>(s: seq<T>, x: T)
    ensures x !in s ==> Without(s, x) == s
    ensures x in s ==> |Without(s, x)| == |s| - 1
    ensures forall y :: y in Without(s, x) ==> y in s
    ensures Distinct(s) ==> Distinct(Without(s, x)) && x !in Without(s, x)
    ensures Distinct(s) ==> forall y :: y in s && y != x ==> y in Without(s, x)
  {
    if s != [] && s[0] != x {
      WithoutMembers(s[1..], x);
      assert Distinct(s) ==> s[0] !in Without(s[1..], x);
    }
  }

  /** Deleting an element that sits after a prefix not containing it splices it out. */
  lemma {:induction false} WithoutSplice<T>(a: seq<T>, x: T, b: seq<T>)
    requires x !in a
    ensures Without(a + [x] + b, x) == a + b
  {
    if a != [] {
      assert (a + [x] + b)[1..] == a[1..] + [x] + b;
      WithoutSplice(a[1..], x, b);
      assert [a[0]] + (a[1..] + b) == a + b;
    }
  }

  /** In an insertion-ordered set split in two, the first element of the second part is not in the first. */
  lemma {:induction false} DistinctSplit<T>(a: seq<T>, b: seq<T>)
    requires Distinct(a + b) && b != []
    ensures b[0] !in a
  {
    if a != [] {
      assert (a + b)[1..] == a[1..] + b;
      DistinctSplit(a[1..], b);
      assert b[0] in a + b;
    }
  }

  /** Splitting off the first element of a suffix. */
  lemma SuffixCons<T>(s: seq<T>, i: nat)
    requires i < |s|
    ensures s[i..] == [s[i]] + s[i + 1..]
  {
  }

  /** Moving the first element of a suffix to the end of a prefix. */
  lemma ShiftOne<T>(a: seq<T>, s: seq<T>, i: nat)
    requires i < |s|
    ensures a + s[i..] == (a + [s[i]]) + s[i + 1..]
    ensures a + s[i..] == a + [s[i]] + s[i + 1..]
  {
    SuffixCons(s, i);
  }

  /** Appending a new element keeps a sequence free of duplicates. */
  lemma {:induction false} DistinctSnoc<T>(s: seq<T>, x: T)
    requires Distinct(s) && x !in s
    ensures Distinct(s + [x])
  {
    if s != [] {
      assert (s + [x])[1..] == s[1..] + [x];
      DistinctSnoc(s[1..], x);
    }
  }
}
