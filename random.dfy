/** The pseudo-random primitives the generator draws on, driven by oracle
    values: a draw is an arbitrary natural number, so every contract that
    holds for all draws holds whatever the generator returns. */
module Random {

  /** A stream of draws: the listed ones first, then `rest` for ever after.
      A run reads only finitely many draws, so these streams stand for every
      sequence of outcomes a run can see. */
  datatype Stream<T> = Stream(first: seq<T>, rest: T)
  {
    /** The k-th draw. */
    function At(k: nat): T
    {
      if k < |first| then first[k] else rest
    }
  }

  /** `randrange(lo, hi)`: the draw, reduced into the half-open range. */
  function RandRange(lo: int, hi: int, draw: nat): (r: int)
    requires lo < hi
    ensures lo <= r < hi
  {
    lo + draw % (hi - lo)
  }

  /** Every value of the range is produced by some draw. */
  lemma RandRangeReaches(lo: int, hi: int, v: int)
    requires lo <= v < hi
    ensures RandRange(lo, hi, v - lo) == v
  {
    var w := hi - lo;
    var d := v - lo;
    assert 0 <= d < w;
    assert d / w == 0;
    assert d == w * (d / w) + d % w;
  }

  /** `perm` lists each of 0 .. n-1 exactly once. */
  ghost predicate IsPermutation(perm: seq<nat>, n: nat)
  {
    && |perm| == n
    && (forall i :: 0 <= i < n ==> perm[i] < n)
    && (forall i, j :: 0 <= i < j < n ==> perm[i] != perm[j])
  }

  /** Exchanging two entries of a permutation gives a permutation. */
  lemma SwapKeepsPermutation(perm: seq<nat>, n: nat, j: nat, k: nat)
    requires IsPermutation(perm, n) && j < n && k < n
    ensures IsPermutation(perm[k := perm[j]][j := perm[k]], n)
  {
    var p := perm[k := perm[j]][j := perm[k]];
    forall a, b | 0 <= a < b < n ensures p[a] != p[b] {
      var a' := if a == j then k else if a == k then j else a;
      var b' := if b == j then k else if b == k then j else b;
      assert p[a] == perm[a'] && p[b] == perm[b'] && a' != b';
    }
  }

  /** Exchanging two entries keeps the multiset of a sequence. */
  lemma SwapKeepsMultiset<T>(s: seq<T>, j: nat, k: nat)
    requires j < |s| && k < |s|
    ensures multiset(s[k := s[j]][j := s[k]]) == multiset(s)
  {
    if j != k {
      var t := s[k := s[j]];
      assert multiset(t) == multiset(s) - multiset{s[k]} + multiset{s[j]};
      assert multiset(t[j := s[k]]) == multiset(t) - multiset{t[j]} + multiset{s[k]};
    }
  }

  /** `random.shuffle`: the Fisher-Yates pass from the last position down to
      position 1, swapping position k with a drawn position j <= k. The
      result is `s` re-ordered by the permutation `perm`. */
  method Shuffle<T>(s: seq<T>, draw: Stream<nat>) returns (r: seq<T>, ghost perm: seq<nat>)
    ensures |r| == |s|
    ensures IsPermutation(perm, |s|)
    ensures forall i :: 0 <= i < |s| ==> r[i] == s[perm[i]]
    ensures multiset(r) == multiset(s)
  {
    r := s;
    perm := seq(|s|, i => i);
    var k := |s| - 1;
    while k > 0
      invariant -1 <= k < |s|
      invariant |r| == |s|
      invariant IsPermutation(perm, |s|)
      invariant forall i :: 0 <= i < |s| ==> r[i] == s[perm[i]]
      invariant multiset(r) == multiset(s)
    {
      var j := draw.At(k) % (k + 1);
      SwapKeepsPermutation(perm, |s|, j, k);
      SwapKeepsMultiset(r, j, k);
      r := r[k := r[j]][j := r[k]];
      perm := perm[k := perm[j]][j := perm[k]];
      k := k - 1;
    }
  }
}
