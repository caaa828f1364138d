/** Sequence helpers with the meaning of the Python slicing and list operations the
    training script uses, plus permutations as produced by `np.random.permutation`. */
module Seqs {

  function Min(a: int, b: int): (m: int)
  {
    if a <= b then a else b
  }

  /** Python's `s[:-1]`: everything but the last element (empty stays empty). */
  function DropLast<T>(s: seq<T>): (r: seq<T>)
    ensures |r| == if |s| == 0 then 0 else |s| - 1
    ensures r == s[..|r|]
  {
    if |s| == 0 then [] else s[..|s| - 1]
  }

  /** Python's `s[1:]`: everything but the first element (empty stays empty). */
  function DropFirst<T>(s: seq<T>): (r: seq<T>)
    ensures |r| == if |s| == 0 then 0 else |s| - 1
    ensures r == s[|s| - |r|..]
  {
    if |s| == 0 then [] else s[1..]
  }

  /** Python's `s[k:]` for a non-negative `k`, which is empty when `k` is past the end. */
  function From<T>(s: seq<T>, k: nat): (r: seq<T>)
    ensures |r| == if k <= |s| then |s| - k else 0
    ensures k <= |s| ==> r == s[k..]
  {
    if k <= |s| then s[k..] else []
  }

  /** A suffix of a slice is a slice. */
  lemma SliceOfSlice<T>(s: seq<T>, lo: nat, hi: nat, i: nat)
    requires lo + i <= hi <= |s|
    ensures s[lo..hi][i..] == s[lo + i..hi]
  {
  }

  /** Element-wise application of `f`. */
  function MapSeq<A, B>(f: A -> B, s: seq<A>): (r: seq<B>)
    ensures |r| == |s|
    ensures forall i :: 0 <= i < |s| ==> r[i] == f(s[i])
  {
    seq(|s|, i requires 0 <= i < |s| => f(s[i]))
  }

  /** Python's `zip(a, b)` on lists of equal length. */
  function Zip<A, B>(a: seq<A>, b: seq<B>): (r: seq<(A, B)>)
    requires |a| == |b|
    ensures |r| == |a|
    ensures forall i :: 0 <= i < |a| ==> r[i] == (a[i], b[i])
  {
    seq(|a|, i requires 0 <= i < |a| => (a[i], b[i]))
  }

  /** `[0, 1, ..., n-1]`, Python's `range(n)`. */
  function Range(n: nat): (r: seq<nat>)
    ensures |r| == n
    ensures forall i :: 0 <= i < n ==> r[i] == i
  {
    if n == 0 then [] else Range(n - 1) + [n - 1]
  }

  /** Every index in `idx` addresses an element of a list of length `n`. */
  predicate InBounds(idx: seq<nat>, n: nat)
  {
    forall k :: 0 <= k < |idx| ==> idx[k] < n
  }

  /** `idx` is a rearrangement of `range(n)`: what `np.random.permutation(n)` returns. */
  predicate IsPermutation(idx: seq<nat>, n: nat)
  {
    multiset(idx) == multiset(Range(n))
  }

  /** Python's `[s[i] for i in idx]`. */
  function Permute<T>(s: seq<T>, idx: seq<nat>): (r: seq<T>)
    requires InBounds(idx, |s|)
    ensures |r| == |idx|
    ensures forall k :: 0 <= k < |idx| ==> r[k] == s[idx[k]]
  {
    seq(|idx|, k requires 0 <= k < |idx| => s[idx[k]])
  }

  /** A permutation of `range(n)` has `n` entries, all below `n`. */
  lemma PermutationInBounds(idx: seq<nat>, n: nat)
    requires IsPermutation(idx, n)
    ensures |idx| == n
    ensures InBounds(idx, n)
  {
    calc {
      |idx|;
      |multiset(idx)|;
      |multiset(Range(n))|;
      |Range(n)|;
    }
    forall k | 0 <= k < |idx|
      ensures idx[k] < n
    {
      assert idx[k] in multiset(idx);
      assert idx[k] in multiset(Range(n));
    }
  }

  /** Reordering the positions commutes with pairing up two parallel lists. */
  lemma PermuteZip<A, B>(a: seq<A>, b: seq<B>, idx: seq<nat>)
    requires |a| == |b|
    requires InBounds(idx, |a|)
    ensures Zip(Permute(a, idx), Permute(b, idx)) == Permute(Zip(a, b), idx)
  {
  }

  /** Permuting by a concatenation of index lists concatenates the results. */
  lemma PermuteAppend<T>(s: seq<T>, a: seq<nat>, b: seq<nat>)
    requires InBounds(a, |s|) && InBounds(b, |s|)
    ensures InBounds(a + b, |s|)
    ensures Permute(s, a + b) == Permute(s, a) + Permute(s, b)
  {
  }

  /** Indices that stay below `k` select the same elements from `s[..k]` as from `s`. */
  lemma PermutePrefix<T>(s: seq<T>, k: nat, idx: seq<nat>)
    requires k <= |s|
    requires InBounds(idx, k)
    ensures InBounds(idx, |s|)
    ensures Permute(s[..k], idx) == Permute(s, idx)
  {
  }

  /** Removing the largest index from a permutation of `range(n)` leaves one of `range(n-1)`. */
  lemma RemoveLargest(idx: seq<nat>, n: nat, j: nat)
    requires IsPermutation(idx, n)
    requires j < |idx| && idx[j] == n - 1
    ensures n > 0
    ensures IsPermutation(idx[..j] + idx[j + 1..], n - 1)
  {
    var last: nat := n - 1;
    assert idx[j] in multiset(Range(n));
    assert Range(n) == Range(n - 1) + [last];
    assert idx == idx[..j] + [last] + idx[j + 1..];
    calc {
      multiset(idx[..j] + idx[j + 1..]);
      multiset(idx[..j]) + multiset(idx[j + 1..]);
      multiset(idx) - multiset{last};
      multiset(Range(n)) - multiset{last};
      multiset(Range(n - 1));
    }
  }

  /** A permutation of `range(n)`, `n > 0`, contains `n - 1`. */
  lemma LargestPresent(idx: seq<nat>, n: nat) returns (j: nat)
    requires IsPermutation(idx, n) && n > 0
    ensures j < |idx| && idx[j] == n - 1
  {
    var last: nat := n - 1;
    assert Range(n) == Range(n - 1) + [last];
    assert last in multiset(Range(n));
    assert last in multiset(idx);
    j :| 0 <= j < |idx| && idx[j] == last;
  }

  /** Taking one index out of the list takes its element out of the permuted multiset. */
  lemma PermuteRemoveOne<T>(s: seq<T>, a: seq<nat>, x: nat, b: seq<nat>)
    requires InBounds(a, |s|) && InBounds(b, |s|) && x < |s|
    ensures InBounds(a + [x] + b, |s|) && InBounds(a + b, |s|)
    ensures multiset(Permute(s, a + [x] + b)) == multiset(Permute(s, a + b)) + multiset{s[x]}
  {
    PermuteAppend(s, a, [x]);
    PermuteAppend(s, a + [x], b);
    PermuteAppend(s, a, b);
    assert Permute(s, [x]) == [s[x]];
  }

  /** Once the permuted prefix `s[..n-1]` keeps its elements, putting the index of the last
      element back in at position `j` keeps all of `s`. */
  lemma PermuteLastBack<T>(s: seq<T>, idx: seq<nat>, j: nat)
    requires |s| > 0 && j < |idx| && idx[j] == |s| - 1
    requires InBounds(idx[..j] + idx[j + 1..], |s| - 1)
    requires multiset(Permute(s[..|s| - 1], idx[..j] + idx[j + 1..])) == multiset(s[..|s| - 1])
    ensures InBounds(idx, |s|)
    ensures multiset(Permute(s, idx)) == multiset(s)
  {
    var last: nat := |s| - 1;
    var a, b := idx[..j], idx[j + 1..];
    assert InBounds(a, last) && InBounds(b, last) by {
      forall k | 0 <= k < |a| ensures a[k] < last { assert a[k] == (a + b)[k]; }
      forall k | 0 <= k < |b| ensures b[k] < last { assert b[k] == (a + b)[|a| + k]; }
    }
    PermutePrefix(s, last, a + b);
    PermuteRemoveOne(s, a, last, b);
    assert idx == a + [last] + b;
    assert s == s[..last] + [s[last]];
  }

  /** Applying a permutation keeps exactly the same elements, with the same multiplicities. */
  lemma {:induction false} PermutePreservesMultiset<T>(s: seq<T>, idx: seq<nat>)
    requires IsPermutation(idx, |s|)
    ensures InBounds(idx, |s|)
    ensures multiset(Permute(s, idx)) == multiset(s)
    decreases |s|
  {
    PermutationInBounds(idx, |s|);
    if |s| > 0 {
      var n := |s|;
      var j := LargestPresent(idx, n);
      RemoveLargest(idx, n, j);
      var rest := idx[..j] + idx[j + 1..];
      PermutationInBounds(rest, n - 1);
      PermutePreservesMultiset(s[..n - 1], rest);
      PermuteLastBack(s, idx, j);
    }
  }
}
