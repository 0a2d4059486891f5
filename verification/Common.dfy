/** Small datatypes and sequence facts shared by the models. */
module Common {

  datatype Option<+T> = None | Some(value: T)

  /** What an operation that may be refused hands back. */
  datatype Result<+T> = Ok(value: T) | Error(reason: string)

  ghost predicate Distinct<T>(s: seq<T>) {
    forall i, j :: 0 <= i < j < |s| ==> s[i] != s[j]
  }

  lemma SubsetIsSmaller<T>(a: set<T>, b: set<T>)
    requires a <= b
    ensures |a| <= |b|
  {
    assert b == a + (b - a);
  }

  /** Two duplicate-free lists of the same elements are permutations of each other. */
  lemma {:induction false} SameElementsSamePermutation<T>(a: seq<T>, b: seq<T>)
    requires Distinct(a) && Distinct(b)
    requires forall x :: x in a <==> x in b
    ensures multiset(a) == multiset(b)
  {
    forall x
      ensures multiset(a)[x] == multiset(b)[x]
    {
      DistinctCountsOnce(a, x);
      DistinctCountsOnce(b, x);
    }
  }

  lemma {:induction false} DistinctCountsOnce<T>(s: seq<T>, x: T)
    requires Distinct(s)
    ensures multiset(s)[x] == if x in s then 1 else 0
  {
    if s == [] {
    } else {
      var rest := s[..|s| - 1];
      assert s == rest + [s[|s| - 1]];
      DistinctCountsOnce(rest, x);
    }
  }

  /** A duplicate-free list drawn from another list is no longer than it. */
  lemma {:induction false} DistinctSubsetIsShorter<T>(small: seq<T>, big: seq<T>)
    requires Distinct(small)
    requires forall x :: x in small ==> x in big
    ensures |small| <= |big|
  {
    forall x
      ensures multiset(small)[x] <= multiset(big)[x]
    {
      DistinctCountsOnce(small, x);
    }
    assert multiset(small) <= multiset(big);
    assert |multiset(small)| <= |multiset(big)| by {
      assert multiset(big) == multiset(small) + (multiset(big) - multiset(small));
    }
  }
}
