/** Python's `random.shuffle`, modelled as the Fisher-Yates loop it runs:
    for i from n-1 down to 1, pick j in [0, i] and swap positions i and j.
    The random picks are arbitrary; `draws` records them, the k-th pick
    belonging to position n-1-k. */
module Shuffle {

  /** Every pick made so far lies in the range the loop allows at its step. */
  ghost predicate DrawsInRange(n: nat, draws: seq<nat>)
  {
    && (|draws| < n || |draws| == 0)
    && forall k :: 0 <= k < |draws| ==> draws[k] <= n - 1 - k
  }

  /** All n-1 picks of a full shuffle have been made. */
  ghost predicate DrawsComplete(n: nat, draws: seq<nat>)
  {
    DrawsInRange(n, draws) && |draws| == (if n == 0 then 0 else n - 1)
  }

  function Swap<T>(s: seq<T>, i: nat, j: nat): (r: seq<T>)
    requires i < |s| && j < |s|
    ensures |r| == |s| && r[i] == s[j] && r[j] == s[i]
    ensures forall k :: 0 <= k < |s| && k != i && k != j ==> r[k] == s[k]
  {
    s[i := s[j]][j := s[i]]
  }

  lemma SwapPreservesMultiset<T>(s: seq<T>, i: nat, j: nat)
    requires i < |s| && j < |s|
    ensures multiset(Swap(s, i, j)) == multiset(s)
  {
  }

  /** The sequence after the swaps that `draws` prescribes, applied in order. */
  function Shuffled<T>(s: seq<T>, draws: seq<nat>): (r: seq<T>)
    requires DrawsInRange(|s|, draws)
    ensures |r| == |s|
    decreases |draws|
  {
    if draws == [] then s
    else
      var k := |draws| - 1;
      Swap(Shuffled(s, draws[..k]), |s| - 1 - k, draws[k])
  }

  /** Shuffling is a permutation: it keeps every element with its multiplicity. */
  lemma {:induction false} ShuffledPreservesMultiset<T>(s: seq<T>, draws: seq<nat>)
    requires DrawsInRange(|s|, draws)
    ensures multiset(Shuffled(s, draws)) == multiset(s)
    decreases |draws|
  {
    if draws != [] {
      var k := |draws| - 1;
      assert DrawsInRange(|s|, draws[..k]);
      ShuffledPreservesMultiset(s, draws[..k]);
      SwapPreservesMultiset(Shuffled(s, draws[..k]), |s| - 1 - k, draws[k]);
    }
  }

  /** The pairs `(i, s[i])` that Python's `enumerate` yields. */
  function Enumerate<T>(s: seq<T>): (r: seq<(nat, T)>)
    ensures |r| == |s|
    ensures forall i :: 0 <= i < |s| ==> r[i] == (i, s[i])
  {
    seq(|s|, i requires 0 <= i < |s| => (i, s[i]))
  }

  function Seconds<A, B>(s: seq<(A, B)>): (r: seq<B>)
    ensures |r| == |s|
    ensures forall i :: 0 <= i < |s| ==> r[i] == s[i].1
  {
    seq(|s|, i requires 0 <= i < |s| => s[i].1)
  }

  ghost predicate Distinct<T>(s: seq<T>)
  {
    forall i, j :: 0 <= i < |s| && 0 <= j < |s| && i != j ==> s[i] != s[j]
  }

  /** Shuffling moves elements and never duplicates one. */
  lemma {:induction false} ShuffledKeepsDistinct<T>(s: seq<T>, draws: seq<nat>)
    requires DrawsInRange(|s|, draws)
    requires Distinct(s)
    ensures Distinct(Shuffled(s, draws))
    decreases |draws|
  {
    if draws != [] {
      var k := |draws| - 1;
      assert DrawsInRange(|s|, draws[..k]);
      ShuffledKeepsDistinct(s, draws[..k]);
    }
  }

  lemma SecondsOfSwap<A, B>(s: seq<(A, B)>, i: nat, j: nat)
    requires i < |s| && j < |s|
    ensures Seconds(Swap(s, i, j)) == Swap(Seconds(s), i, j)
  {
    var l, r := Seconds(Swap(s, i, j)), Swap(Seconds(s), i, j);
    assert |l| == |r|;
    forall k | 0 <= k < |l|
      ensures l[k] == r[k]
    {
      if k == i {
      } else if k == j {
      } else {
      }
    }
  }

  /** Shuffling the pairs and then projecting them equals shuffling the projection. */
  lemma {:induction false} SecondsOfShuffled<A, B>(s: seq<(A, B)>, draws: seq<nat>)
    requires DrawsInRange(|s|, draws)
    ensures Seconds(Shuffled(s, draws)) == Shuffled(Seconds(s), draws)
    decreases |draws|
  {
    if draws != [] {
      var k := |draws| - 1;
      assert DrawsInRange(|s|, draws[..k]);
      SecondsOfShuffled(s, draws[..k]);
      SecondsOfSwap(Shuffled(s, draws[..k]), |s| - 1 - k, draws[k]);
    }
  }

  /** Every entry of `r` is a pair `(i, s[i])` of `enumerate(s)`. */
  ghost predicate PairsOfEnumeration<T>(r: seq<(nat, T)>, s: seq<T>)
  {
    forall p :: 0 <= p < |r| ==> r[p].0 < |s| && r[p].1 == s[r[p].0]
  }

  /** No index occurs twice in `r`. */
  ghost predicate IndicesDistinct<T>(r: seq<(nat, T)>)
  {
    forall p, q :: 0 <= p < |r| && 0 <= q < |r| && p != q ==> r[p].0 != r[q].0
  }

  /** `r` lists the pairs of `enumerate(s)` in some order: each pair is an original
      `(i, s[i])`, no index occurs twice and every index occurs. */
  ghost predicate IsPermutedEnumeration<T>(r: seq<(nat, T)>, s: seq<T>)
  {
    && |r| == |s|
    && PairsOfEnumeration(r, s)
    && IndicesDistinct(r)
    && CoversEnumeration(r, s)
  }

  lemma ShuffledEnumerateIsPermutation<T>(s: seq<T>, draws: seq<nat>)
    requires DrawsInRange(|s|, draws)
    ensures IsPermutedEnumeration(Shuffled(Enumerate(s), draws), s)
  {
    ShuffledEnumeratePairs(s, draws);
    ShuffledEnumerateDistinct(s, draws);
    ShuffledEnumerateCovers(s, draws);
  }

  lemma ShuffledEnumeratePairs<T>(s: seq<T>, draws: seq<nat>)
    requires DrawsInRange(|s|, draws)
    ensures PairsOfEnumeration(Shuffled(Enumerate(s), draws), s)
  {
    var e := Enumerate(s);
    var r := Shuffled(e, draws);
    ShuffledPreservesMultiset(e, draws);
    forall p | 0 <= p < |r|
      ensures r[p].0 < |s| && r[p].1 == s[r[p].0]
    {
      assert r[p] in multiset(e);
      var i :| 0 <= i < |e| && e[i] == r[p];
    }
  }

  lemma ShuffledEnumerateDistinct<T>(s: seq<T>, draws: seq<nat>)
    requires DrawsInRange(|s|, draws)
    ensures IndicesDistinct(Shuffled(Enumerate(s), draws))
  {
    var e := Enumerate(s);
    var r := Shuffled(e, draws);
    assert Distinct(e) by {
      forall i, j | 0 <= i < |e| && 0 <= j < |e| && i != j
        ensures e[i] != e[j]
      {
        assert e[i].0 == i && e[j].0 == j;
      }
    }
    ShuffledKeepsDistinct(e, draws);
    ShuffledEnumeratePairs(s, draws);
    forall p, q | 0 <= p < |r| && 0 <= q < |r| && p != q
      ensures r[p].0 != r[q].0
    {
      assert r[p] != r[q];
      assert r[p] == (r[p].0, s[r[p].0]) && r[q] == (r[q].0, s[r[q].0]);
    }
  }

  /** Every pair `(i, s[i])` of `enumerate(s)` occurs somewhere in `r`. */
  ghost predicate CoversEnumeration<T>(r: seq<(nat, T)>, s: seq<T>)
  {
    forall i :: 0 <= i < |s| ==> exists p :: 0 <= p < |r| && r[p] == (i, s[i])
  }

  lemma ShuffledEnumerateCovers<T>(s: seq<T>, draws: seq<nat>)
    requires DrawsInRange(|s|, draws)
    ensures CoversEnumeration(Shuffled(Enumerate(s), draws), s)
  {
    var e := Enumerate(s);
    var r := Shuffled(e, draws);
    ShuffledPreservesMultiset(e, draws);
    forall i | 0 <= i < |s|
      ensures exists p :: 0 <= p < |r| && r[p] == (i, s[i])
    {
      assert e[i] == (i, s[i]);
      assert e[i] in multiset(r);
      var p :| 0 <= p < |r| && r[p] == e[i];
    }
  }

  /** One more pick extends the shuffle by one swap. */
  lemma {:induction false} ShuffledStep<T>(s: seq<T>, draws: seq<nat>, j: nat)
    requires DrawsInRange(|s|, draws)
    requires |draws| + 1 < |s| && j <= |s| - 1 - |draws|
    ensures DrawsInRange(|s|, draws + [j])
    ensures Shuffled(s, draws + [j]) == Swap(Shuffled(s, draws), |s| - 1 - |draws|, j)
  {
    var longer := draws + [j];
    assert longer[..|draws|] == draws;
    forall k | 0 <= k < |longer|
      ensures longer[k] <= |s| - 1 - k
    {
      if k < |draws| {
        assert longer[k] == draws[k];
      }
    }
  }

  method SwapElements<T>(a: array<T>, i: nat, j: nat)
    requires i < a.Length && j < a.Length
    modifies a
    ensures a[..] == Swap(old(a[..]), i, j)
  {
    a[i], a[j] := a[j], a[i];
  }

  /** `random.shuffle(a)`: Fisher-Yates with an arbitrary pick at every step. */
  method ShuffleInPlace<T>(a: array<T>) returns (ghost draws: seq<nat>)
    modifies a
    ensures DrawsComplete(a.Length, draws)
    ensures a[..] == Shuffled(old(a[..]), draws)
  {
    draws := [];
    if a.Length == 0 {
      return;
    }
    ghost var original := a[..];
    var i := a.Length - 1;
    while i > 0
      invariant 0 <= i < a.Length
      invariant |draws| == a.Length - 1 - i
      invariant DrawsInRange(a.Length, draws)
      invariant a[..] == Shuffled(original, draws)
    {
      var j :| 0 <= j <= i;
      SwapElements(a, i, j);
      ShuffledStep(original, draws, j);
      draws := draws + [j];
      i := i - 1;
    }
  }
}
