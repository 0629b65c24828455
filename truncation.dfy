/** `truncate_seq_pair`: shorten a pair of token lists until their combined
    length fits the budget, one token at a time from the longer list. */
module Truncation {
  import opened Corpus
  import Random

  /** The lengths the removal policy reaches: while the pair is over budget,
      remove one token from A when A is strictly longer, from B otherwise
      (a tie goes to B). */
  function RemovalLengths(la: nat, lb: nat, m: nat): (nat, nat)
    decreases la + lb
  {
    if la + lb <= m then (la, lb)
    else if la > lb then RemovalLengths(la - 1, lb, m)
    else RemovalLengths(la, lb - 1, m)
  }

  /** The same lengths in closed form: a pair that fits is kept; otherwise the
      shorter list keeps its length when it fits in its half of the budget,
      and when neither does the budget is split, A taking the odd token. */
  function BalancedLengths(la: nat, lb: nat, m: nat): (r: (nat, nat))
    ensures r.0 + r.1 == if la + lb <= m then la + lb else m
    ensures r.0 <= la && r.1 <= lb
    ensures la + lb > m ==> r.0 == la || r.1 == lb || r == ((m + 1) / 2, m / 2)
  {
    if la + lb <= m then (la, lb)
    else if la <= (m + 1) / 2 then (la, m - la)
    else if lb <= m / 2 then (m - lb, lb)
    else ((m + 1) / 2, m / 2)
  }

  /** The step-by-step policy ends exactly at the closed form. */
  lemma {:induction false} RemovalIsBalanced(la: nat, lb: nat, m: nat)
    ensures RemovalLengths(la, lb, m) == BalancedLengths(la, lb, m)
    decreases la + lb
  {
    if la + lb <= m {
    } else if la > lb {
      RemovalIsBalanced(la - 1, lb, m);
    } else {
      RemovalIsBalanced(la, lb - 1, m);
    }
  }

  /** The outcome of `truncate_seq_pair` from removal number `step` on: while
      the pair is over budget, drop the first or the last token of the longer
      list (B on a tie) as the coin for that removal says. Once both lists
      are empty and still over budget, the assertion fails. */
  function Truncated(a: seq<Token>, b: seq<Token>, maxNumTokens: int, frontCoin: Random.Stream<bool>, step: nat)
    : Result<(seq<Token>, seq<Token>)>
    decreases |a| + |b|
  {
    if |a| + |b| <= maxNumTokens then Ok((a, b))
    else if |a| > |b| then
      Truncated(if frontCoin.At(step) then a[1..] else a[..|a| - 1], b, maxNumTokens, frontCoin, step + 1)
    else if |b| < 1 then Err(AssertionError)
    else Truncated(a, if frontCoin.At(step) then b[1..] else b[..|b| - 1], maxNumTokens, frontCoin, step + 1)
  }

  /** What the removals promise: the assertion fails exactly for a negative
      budget; otherwise the lengths are the policy's and each list ends as a
      contiguous run of the one it started as. */
  lemma {:induction false} TruncatedMeetsBudget(a: seq<Token>, b: seq<Token>, maxNumTokens: int,
                                                 frontCoin: Random.Stream<bool>, step: nat)
    ensures Truncated(a, b, maxNumTokens, frontCoin, step).Err? <==> maxNumTokens < 0
    ensures Truncated(a, b, maxNumTokens, frontCoin, step).Err? ==>
              Truncated(a, b, maxNumTokens, frontCoin, step).error == AssertionError
    ensures var t := Truncated(a, b, maxNumTokens, frontCoin, step);
            t.Ok? ==> && 0 <= maxNumTokens
                      && (|t.value.0|, |t.value.1|) == RemovalLengths(|a|, |b|, maxNumTokens)
                      && IsSlice(t.value.0, a) && IsSlice(t.value.1, b)
    decreases |a| + |b|
  {
    var t := Truncated(a, b, maxNumTokens, frontCoin, step);
    if |a| + |b| <= maxNumTokens {
      assert a == a[0..|a|] && b == b[0..|b|];
    } else if |a| > |b| {
      var a' := if frontCoin.At(step) then a[1..] else a[..|a| - 1];
      TruncatedMeetsBudget(a', b, maxNumTokens, frontCoin, step + 1);
      if t.Ok? {
        assert a' == a[if frontCoin.At(step) then 1 else 0..if frontCoin.At(step) then |a| else |a| - 1];
        SliceOfSlice(t.value.0, a', a);
      }
    } else if |b| >= 1 {
      var b' := if frontCoin.At(step) then b[1..] else b[..|b| - 1];
      TruncatedMeetsBudget(a, b', maxNumTokens, frontCoin, step + 1);
      if t.Ok? {
        assert b' == b[if frontCoin.At(step) then 1 else 0..if frontCoin.At(step) then |b| else |b| - 1];
        SliceOfSlice(t.value.1, b', b);
      }
    }
  }

  /** Removes tokens until |a| + |b| <= maxNumTokens. Each removal takes the
      first or the last token of the list being shortened, as the coin for
      that removal says. A negative budget can never be met: both lists are
      emptied and the source's `assert len(trunc_tokens) >= 1` fails. */
  method TruncateSeqPair(tokensA: seq<Token>, tokensB: seq<Token>, maxNumTokens: int, frontCoin: Random.Stream<bool>)
    returns (r: Result<(seq<Token>, seq<Token>)>)
    ensures r == Truncated(tokensA, tokensB, maxNumTokens, frontCoin, 0)
    ensures r.Err? <==> maxNumTokens < 0
    ensures r.Err? ==> r.error == AssertionError
    ensures r.Ok? ==> (|r.value.0|, |r.value.1|) == RemovalLengths(|tokensA|, |tokensB|, maxNumTokens)
    ensures r.Ok? ==>
              |r.value.0| + |r.value.1| == (if |tokensA| + |tokensB| <= maxNumTokens then |tokensA| + |tokensB| else maxNumTokens)
    ensures r.Ok? ==> IsSlice(r.value.0, tokensA) && IsSlice(r.value.1, tokensB)
  {
    var a, b := tokensA, tokensB;
    ghost var aLo, aHi, bLo, bHi := 0, |tokensA|, 0, |tokensB|;
    var step := 0;
    while |a| + |b| > maxNumTokens
      invariant 0 <= aLo <= aHi <= |tokensA| && a == tokensA[aLo..aHi]
      invariant 0 <= bLo <= bHi <= |tokensB| && b == tokensB[bLo..bHi]
      invariant maxNumTokens >= 0 ==>
        RemovalLengths(|a|, |b|, maxNumTokens) == RemovalLengths(|tokensA|, |tokensB|, maxNumTokens)
      invariant Truncated(a, b, maxNumTokens, frontCoin, step) == Truncated(tokensA, tokensB, maxNumTokens, frontCoin, 0)
      decreases |a| + |b|
    {
      if |a| > |b| {
        if frontCoin.At(step) {
          assert a[1..] == tokensA[aLo + 1..aHi];
          a, aLo := a[1..], aLo + 1;
        } else {
          assert a[..|a| - 1] == tokensA[aLo..aHi - 1];
          a, aHi := a[..|a| - 1], aHi - 1;
        }
      } else {
        if |b| < 1 {
          return Err(AssertionError);
        }
        if frontCoin.At(step) {
          assert b[1..] == tokensB[bLo + 1..bHi];
          b, bLo := b[1..], bLo + 1;
        } else {
          assert b[..|b| - 1] == tokensB[bLo..bHi - 1];
          b, bHi := b[..|b| - 1], bHi - 1;
        }
      }
      step := step + 1;
    }
    RemovalIsBalanced(|tokensA|, |tokensB|, maxNumTokens);
    r := Ok((a, b));
  }
}
