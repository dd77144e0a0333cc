/** The in-place Fisher-Yates shuffle that the word-search board and the
    pair-matching lower column both use. `Math.random` is replaced by a
    sequence of swap partners: at step `i` the element at `i` is exchanged
    with the one at `swaps[i]`, which the source draws from `0..i`. */
module Shuffle {
  import opened Common

  /** `swaps` holds one admissible partner per position of an `n`-element array. */
  predicate IsSwapSequence(swaps: seq<nat>, n: nat)
  {
    |swaps| == n && forall k :: 0 <= k < n ==> swaps[k] <= k
  }

  /** Exchange of the elements at `i` and `j` (`tmp = a[i]; a[i] = a[j]; a[j] = tmp`). */
  function Swap<T>(s: seq<T>, i: nat, j: nat): (r: seq<T>)
    requires i < |s| && j < |s|
    ensures |r| == |s| && r[i] == s[j] && r[j] == s[i]
    ensures forall k :: 0 <= k < |s| && k != i && k != j ==> r[k] == s[k]
  {
    s[i := s[j]][j := s[i]]
  }

  /** The result of the shuffle loop run from position `i` down to position 1. */
  function FisherYates<T>(s: seq<T>, swaps: seq<nat>, i: int): seq<T>
    requires IsSwapSequence(swaps, |s|) && -1 <= i < |s|
    decreases i
  {
    if i <= 0 then s else FisherYates(Swap(s, i, swaps[i]), swaps, i - 1)
  }

  /** Swapping two elements keeps the multiset of elements. */
  lemma SwapPermutes<T>(s: seq<T>, i: nat, j: nat)
    requires i < |s| && j < |s|
    ensures multiset(Swap(s, i, j)) == multiset(s)
  {
    var t := s[i := s[j]];
    assert multiset(t) == multiset(s) - multiset{s[i]} + multiset{s[j]};
  }

  /** The shuffle is a permutation of its input. */
  lemma {:induction false} FisherYatesPermutes<T>(s: seq<T>, swaps: seq<nat>, i: int)
    requires IsSwapSequence(swaps, |s|) && -1 <= i < |s|
    ensures |FisherYates(s, swaps, i)| == |s|
    ensures multiset(FisherYates(s, swaps, i)) == multiset(s)
    decreases i
  {
    if i > 0 {
      SwapPermutes(s, i, swaps[i]);
      FisherYatesPermutes(Swap(s, i, swaps[i]), swaps, i - 1);
    }
  }

  /** The shuffle keeps a sequence without repetitions free of them. */
  lemma {:induction false} FisherYatesKeepsNoDup<T>(s: seq<T>, swaps: seq<nat>, i: int)
    requires IsSwapSequence(swaps, |s|) && -1 <= i < |s| && NoDup(s)
    ensures NoDup(FisherYates(s, swaps, i))
    decreases i
  {
    if i > 0 {
      var t := Swap(s, i, swaps[i]);
      forall a, b | 0 <= a < b < |t|
        ensures t[a] != t[b]
      {
        var a', b' := SwappedFrom(a, i, swaps[i]), SwappedFrom(b, i, swaps[i]);
        assert t[a] == s[a'] && t[b] == s[b'];
        if a' > b' {
          assert s[b'] != s[a'];
        }
      }
      FisherYatesKeepsNoDup(t, swaps, i - 1);
    }
  }

  /** The position whose element `Swap(s, i, j)` holds at `k`. */
  function SwappedFrom(k: nat, i: nat, j: nat): nat
  {
    if k == i then j else if k == j then i else k
  }

  /** The source's loop `for (i = n - 1; i > 0; i--)`, run on the array in place. */
  method ShuffleInPlace<T>(a: array<T>, swaps: seq<nat>)
    requires IsSwapSequence(swaps, a.Length)
    modifies a
    ensures a[..] == FisherYates(old(a[..]), swaps, a.Length - 1)
    ensures multiset(a[..]) == multiset(old(a[..]))
  {
    var i := a.Length - 1;
    while i > 0
      invariant -1 <= i < a.Length
      invariant FisherYates(a[..], swaps, i) == FisherYates(old(a[..]), swaps, a.Length - 1)
    {
      var j := swaps[i];
      ghost var before := a[..];
      var tmp := a[i];
      a[i] := a[j];
      a[j] := tmp;
      assert a[..] == Swap(before, i, j);
      i := i - 1;
    }
    FisherYatesPermutes(old(a[..]), swaps, a.Length - 1);
  }
}
