/** Removal at an index (Vector::removeAt) and subsequences, for any element type. */
module Sequences {

  /** s without its element at index i; later elements move down by one. */
  function RemoveAt<T>(s: seq<T>, i: nat): (r: seq<T>)
    requires i < |s|
    ensures |r| == |s| - 1
    ensures forall q :: 0 <= q < |r| ==> r[q] == if q < i then s[q] else s[q + 1]
  {
    s[..i] + s[i + 1..]
  }

  /** Removing an element takes exactly that element out of the multiset. */
  lemma RemoveAtMultiset<T>(s: seq<T>, i: nat)
    requires i < |s|
    ensures multiset(RemoveAt(s, i)) + multiset{s[i]} == multiset(s)
  {
    assert s == s[..i] + [s[i]] + s[i + 1..];
  }

  lemma RemoveAtMembers<T>(s: seq<T>, i: nat)
    requires i < |s|
    ensures forall x :: x in RemoveAt(s, i) ==> x in s
  {
    RemoveAtMultiset(s, i);
  }

  /**
   * A scan that removes entries in place: r holds the kept entries followed by the unscanned
   * rest of s. The next entry is at index |kept|; removing it, or keeping it, leaves the same
   * shape one entry further on.
   */
  lemma ScanStep<T>(r: seq<T>, kept: seq<T>, s: seq<T>, m: nat, drop: bool)
    requires m < |s| && r == kept + s[m..]
    ensures |kept| < |r| && r[|kept|] == s[m]
    ensures drop ==> RemoveAt(r, |kept|) == kept + s[m + 1..]
    ensures !drop ==> r == (kept + [s[m]]) + s[m + 1..]
  {
    assert s[m..] == [s[m]] + s[m + 1..];
  }

  /** idx lists, in increasing order, the positions in b that the elements of a come from. */
  ghost predicate Embeds<T>(a: seq<T>, b: seq<T>, idx: seq<int>) {
    |idx| == |a| &&
    (forall k :: 0 <= k < |a| ==> 0 <= idx[k] < |b| && a[k] == b[idx[k]]) &&
    (forall p, q :: 0 <= p < q < |idx| ==> idx[p] < idx[q])
  }

  /** a is obtained from b by deleting elements, keeping the order of the rest. */
  ghost predicate IsSubsequence<T>(a: seq<T>, b: seq<T>) {
    exists idx :: Embeds(a, b, idx)
  }

  function Identity(n: nat): (idx: seq<int>)
    ensures |idx| == n && forall k :: 0 <= k < n ==> idx[k] == k
  {
    seq(n, k => k)
  }

  lemma EmbedsIdentity<T>(s: seq<T>)
    ensures Embeds(s, s, Identity(|s|))
  {
  }

  /** Deleting an element of a together with its position keeps the embedding. */
  lemma EmbedsRemoveAt<T>(a: seq<T>, b: seq<T>, idx: seq<int>, i: nat)
    requires Embeds(a, b, idx) && i < |a|
    ensures Embeds(RemoveAt(a, i), b, RemoveAt(idx, i))
  {
    var a', idx' := RemoveAt(a, i), RemoveAt(idx, i);
    forall p, q | 0 <= p < q < |idx'|
      ensures idx'[p] < idx'[q]
    {
      var p', q' := if p < i then p else p + 1, if q < i then q else q + 1;
      assert idx'[p] == idx[p'] && idx'[q] == idx[q'] && p' < q';
    }
  }

  /** Every element of a subsequence is an element of the whole. */
  lemma SubsequenceMembers<T>(a: seq<T>, b: seq<T>)
    requires IsSubsequence(a, b)
    ensures forall x :: x in a ==> x in b
  {
    var idx :| Embeds(a, b, idx);
    forall x | x in a
      ensures x in b
    {
      var k :| 0 <= k < |a| && a[k] == x;
      assert b[idx[k]] == x;
    }
  }
}
