/**
 * Two list idioms of the Go code: keeping some elements of a slice in
 * their order (a loop with `append`), and filling a map from a sequence
 * of key/value assignments (a loop of `m[k] = v`, where a later
 * assignment to a key overwrites an earlier one).
 */
module Seqs {

  /**
   * `a` is a subsequence of `b`: `b` with some elements left out, the
   * rest kept in their order.
   */
  ghost predicate IsSubsequence<T>(a: seq<T>, b: seq<T>)
    decreases |b|
  {
    if a == [] then true
    else if b == [] then false
    else if a[|a| - 1] == b[|b| - 1] && IsSubsequence(a[..|a| - 1], b[..|b| - 1]) then true
    else IsSubsequence(a, b[..|b| - 1])
  }

  /** Appending to the sequence, or to both, keeps a subsequence a subsequence. */
  lemma SubsequenceExtend<T>(a: seq<T>, b: seq<T>, x: T)
    requires IsSubsequence(a, b)
    ensures IsSubsequence(a, b + [x])
    ensures IsSubsequence(a + [x], b + [x])
  {
    assert (b + [x])[..|b|] == b;
    assert (a + [x])[..|a|] == a;
  }

  /** The map built by assigning `pairs[0]`, `pairs[1]`, ... in turn. */
  function Assoc<V>(pairs: seq<(string, V)>): map<string, V>
  {
    if pairs == [] then map[] else
      var last := pairs[|pairs| - 1];
      Assoc(pairs[..|pairs| - 1])[last.0 := last.1]
  }

  /** The keys of the map are exactly the keys assigned. */
  lemma {:induction false} AssocKeys<V>(pairs: seq<(string, V)>)
    ensures forall k :: k in Assoc(pairs) <==> exists i :: 0 <= i < |pairs| && pairs[i].0 == k
  {
    if pairs != [] {
      var init := pairs[..|pairs| - 1];
      AssocKeys(init);
      forall k | k in Assoc(pairs) ensures exists i :: 0 <= i < |pairs| && pairs[i].0 == k {
        if k != pairs[|pairs| - 1].0 {
          assert k in Assoc(init);
          var i :| 0 <= i < |init| && init[i].0 == k;
          assert pairs[i].0 == k;
        }
      }
      forall k | exists i :: 0 <= i < |pairs| && pairs[i].0 == k ensures k in Assoc(pairs) {
        var i :| 0 <= i < |pairs| && pairs[i].0 == k;
        if i < |init| {
          assert init[i].0 == k;
        }
      }
    }
  }

  /** The value of a key is the one of its last assignment. */
  lemma {:induction false} AssocLastWins<V>(pairs: seq<(string, V)>, i: nat)
    requires i < |pairs|
    requires forall j :: i < j < |pairs| ==> pairs[j].0 != pairs[i].0
    ensures pairs[i].0 in Assoc(pairs) && Assoc(pairs)[pairs[i].0] == pairs[i].1
  {
    if i < |pairs| - 1 {
      var init := pairs[..|pairs| - 1];
      AssocLastWins(init, i);
    }
  }

  /** No element occurs twice. */
  predicate NoDuplicates<T(==)>(s: seq<T>)
  {
    forall i, j :: 0 <= i < j < |s| ==> s[i] != s[j]
  }

  /** Appending an element not yet present keeps the sequence free of duplicates. */
  lemma NoDuplicatesSnoc<T>(s: seq<T>, x: T)
    requires NoDuplicates(s)
    requires x !in s
    ensures NoDuplicates(s + [x])
  {
  }

  /** In a sequence without duplicates every element occurs once. */
  lemma {:induction false} NoDuplicatesCount<T>(s: seq<T>, x: T)
    requires NoDuplicates(s)
    ensures multiset(s)[x] == if x in s then 1 else 0
  {
    if s != [] {
      var init := s[..|s| - 1];
      assert s == init + [s[|s| - 1]];
      assert NoDuplicates(init);
      NoDuplicatesCount(init, x);
    }
  }

  /** Two sequences without duplicates and with the same elements are permutations of each other. */
  lemma NoDuplicatesPermutation<T>(a: seq<T>, b: seq<T>)
    requires NoDuplicates(a) && NoDuplicates(b)
    requires forall x :: x in a <==> x in b
    ensures multiset(a) == multiset(b)
  {
    forall x ensures multiset(a)[x] == multiset(b)[x] {
      NoDuplicatesCount(a, x);
      NoDuplicatesCount(b, x);
    }
  }

  /** Taking the same element out of two permutations leaves permutations. */
  lemma PermutationRemove<T>(a: seq<T>, x: T, b1: seq<T>, b2: seq<T>)
    requires multiset(a + [x]) == multiset(b1 + [x] + b2)
    ensures multiset(a) == multiset(b1 + b2)
  {
    var m, n := multiset(a), multiset(b1 + b2);
    assert multiset(a + [x]) == m + multiset{x};
    assert multiset(b1 + [x] + b2) == n + multiset{x};
    forall y ensures m[y] == n[y] {
      assert (m + multiset{x})[y] == (n + multiset{x})[y];
    }
  }

  /** Putting the same element into two permutations keeps them permutations. */
  lemma PermutationInsert<T>(a: seq<T>, x: T, b1: seq<T>, b2: seq<T>)
    requires multiset(a) == multiset(b1 + b2)
    ensures multiset(a + [x]) == multiset(b1 + [x] + b2)
  {
    assert multiset(a + [x]) == multiset(a) + multiset{x};
    assert multiset(b1 + [x] + b2) == multiset(b1 + b2) + multiset{x};
  }
}
