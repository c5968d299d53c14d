/** The `ext_notUnique` extension on lists: a map from every element that
    occurs more than once to its number of occurrences. */
module ListExt {

  /** `groupingBy { it }.eachCount()`: one pass over the list that counts each
      element it meets. */
  function EachCount<T(==)>(s: seq<T>): map<T, nat>
  {
    if s == [] then map[]
    else
      var m := EachCount(s[..|s| - 1]);
      var x := s[|s| - 1];
      m[x := (if x in m then m[x] else 0) + 1]
  }

  /** `ext_notUnique`: the counts, filtered to those above one. */
  function NotUnique<T(==)>(s: seq<T>): map<T, nat>
  {
    var counts := EachCount(s);
    map x | x in counts && counts[x] > 1 :: counts[x]
  }

  /** The list's elements are pairwise distinct. */
  predicate Distinct<T(==)>(s: seq<T>) {
    forall i, j :: 0 <= i < j < |s| ==> s[i] != s[j]
  }

  /** The counting pass meets exactly the list's elements and counts each one
      as often as it occurs. */
  lemma {:induction false} EachCountCounts<T>(s: seq<T>)
    ensures forall x :: x in EachCount(s) <==> x in s
    ensures forall x :: x in EachCount(s) ==> EachCount(s)[x] == multiset(s)[x]
  {
    if s != [] {
      var init, x := s[..|s| - 1], s[|s| - 1];
      assert s == init + [x];
      EachCountCounts(init);
      assert multiset(s) == multiset(init) + multiset{x};
      forall y ensures y in s <==> y in init || y == x {
        assert y in s <==> y in multiset(s);
      }
    }
  }

  /** A key is in the result exactly when its element occurs more than once;
      the value is its number of occurrences (so at least two), and every key
      is an element of the list. */
  lemma NotUniqueMeaning<T>(s: seq<T>)
    ensures forall x :: x in NotUnique(s) <==> multiset(s)[x] > 1
    ensures forall x :: x in NotUnique(s) ==> NotUnique(s)[x] == multiset(s)[x] >= 2
    ensures forall x :: x in NotUnique(s) ==> x in s
  {
    EachCountCounts(s);
  }

  lemma {:induction false} DistinctOccursAtMostOnce<T>(s: seq<T>)
    requires Distinct(s)
    ensures forall x :: multiset(s)[x] <= 1
  {
    if s != [] {
      var init, x := s[..|s| - 1], s[|s| - 1];
      assert s == init + [x];
      assert Distinct(init);
      DistinctOccursAtMostOnce(init);
      assert forall i :: 0 <= i < |init| ==> init[i] == s[i] != x;
      assert multiset(s) == multiset(init) + multiset{x};
    }
  }

  lemma RepeatedOccursTwice<T>(s: seq<T>, i: nat, j: nat)
    requires i < j < |s| && s[i] == s[j]
    ensures multiset(s)[s[i]] >= 2
  {
    var x := s[i];
    assert s == s[..j] + s[j..];
    assert x in s[..j];
    assert x == s[j..][0];
    assert multiset(s) == multiset(s[..j]) + multiset(s[j..]);
  }

  /** The result is empty exactly when the list's elements are pairwise
      distinct: the uniqueness test the configuration checks rely on. */
  lemma NotUniqueEmptyIffDistinct<T>(s: seq<T>)
    ensures NotUnique(s) == map[] <==> Distinct(s)
  {
    NotUniqueMeaning(s);
    if Distinct(s) {
      DistinctOccursAtMostOnce(s);
      assert NotUnique(s).Keys == {};
    } else {
      var i, j :| 0 <= i < j < |s| && s[i] == s[j];
      RepeatedOccursTwice(s, i, j);
      assert s[i] in NotUnique(s);
    }
  }
}
