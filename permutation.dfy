/** The reordering done by `random.shuffle`, with the random choice taken out:
    the caller supplies the permutation as a sequence of indices. */
module Permutation {

  /** The indices 0, 1, ..., n - 1 in order. */
  function Range(n: nat): seq<nat>
  {
    seq(n, i => i)
  }

  /** `perm` lists every index below n exactly once. */
  predicate IsPermutation(perm: seq<nat>, n: nat)
  {
    multiset(perm) == multiset(Range(n))
  }

  /** The elements of `s` at the positions `idx`, in the order of `idx`. */
  function Pick<T>(s: seq<T>, idx: seq<nat>): seq<T>
    requires forall k :: 0 <= k < |idx| ==> idx[k] < |s|
  {
    seq(|idx|, k requires 0 <= k < |idx| => s[idx[k]])
  }

  /** A permutation of n indices has length n and only indices below n. */
  lemma PermutationBounds(perm: seq<nat>, n: nat)
    requires IsPermutation(perm, n)
    ensures |perm| == n
    ensures forall k :: 0 <= k < |perm| ==> perm[k] < n
  {
    assert |perm| == |multiset(perm)| == |multiset(Range(n))| == n;
    forall k | 0 <= k < |perm|
      ensures perm[k] < n
    {
      assert perm[k] in multiset(Range(n));
    }
  }

  /** `s` reordered by `perm`: position k holds `s[perm[k]]`. */
  function Permute<T>(s: seq<T>, perm: seq<nat>): (r: seq<T>)
    requires IsPermutation(perm, |s|)
    ensures |r| == |s|
    ensures multiset(r) == multiset(s)
  {
    PermutationBounds(perm, |s|);
    PickPermutation(s, perm);
    Pick(s, perm)
  }

  /** Picking every position exactly once loses and duplicates nothing. */
  lemma {:induction false} PickPermutation<T>(s: seq<T>, perm: seq<nat>)
    requires IsPermutation(perm, |s|)
    ensures forall k :: 0 <= k < |perm| ==> perm[k] < |s|
    ensures multiset(Pick(s, perm)) == multiset(s)
  {
    PermutationBounds(perm, |s|);
    var n := |s|;
    if n == 0 {
      assert Pick(s, perm) == [];
    } else {
      // the position of the last index in `perm`
      assert Range(n)[n - 1] == n - 1;
      assert n - 1 in multiset(perm);
      var k :| 0 <= k < |perm| && perm[k] == n - 1;
      var rest := perm[..k] + perm[k + 1..];
      WithoutLast(perm, n, k);
      var front := s[..n - 1];
      PickPermutation(front, rest);
      PermutationBounds(rest, n - 1);
      PickSplit(s, perm, k);
      PickFront(s, rest);
      assert s == front + [s[n - 1]];
    }
  }

  /** Dropping the last index n - 1 from a permutation of n indices leaves a
      permutation of n - 1 indices. */
  lemma WithoutLast(perm: seq<nat>, n: nat, k: nat)
    requires IsPermutation(perm, n) && n > 0
    requires k < |perm| && perm[k] == n - 1
    ensures IsPermutation(perm[..k] + perm[k + 1..], n - 1)
  {
    assert perm == perm[..k] + [perm[k]] + perm[k + 1..];
    assert Range(n) == Range(n - 1) + [(n - 1) as nat];
    calc {
      multiset(perm[..k] + perm[k + 1..]);
      multiset(perm[..k]) + multiset(perm[k + 1..]);
      multiset(perm) - multiset{(n - 1) as nat};
      multiset(Range(n)) - multiset{(n - 1) as nat};
      multiset(Range(n - 1));
    }
  }

  /** Picking splits around position k of the index sequence. */
  lemma PickSplit<T>(s: seq<T>, idx: seq<nat>, k: nat)
    requires k < |idx|
    requires forall j :: 0 <= j < |idx| ==> idx[j] < |s|
    ensures Pick(s, idx) == Pick(s, idx[..k]) + [s[idx[k]]] + Pick(s, idx[k + 1..])
    ensures Pick(s, idx[..k] + idx[k + 1..]) == Pick(s, idx[..k]) + Pick(s, idx[k + 1..])
  {
  }

  /** Indices that stay below m pick the same elements from a prefix of length m. */
  lemma PickFront<T>(s: seq<T>, idx: seq<nat>)
    requires |s| > 0
    requires forall j :: 0 <= j < |idx| ==> idx[j] < |s| - 1
    ensures Pick(s[..|s| - 1], idx) == Pick(s, idx)
  {
  }
}
