/** `create_masked_lm_predictions`: group the maskable positions (whole words
    when asked), mask whole groups greedily in shuffled order within a
    budget, rewrite the masked tokens in place and report the masked
    positions, in ascending order, with their original tokens. */
module Masking {
  import opened Corpus
  import Random

  /** The marker tokens are never masked. */
  predicate IsSpecial(t: Token)
  {
    t == ClsToken || t == SepToken
  }

  /** `token.startswith("##")`: a WordPiece that continues the previous word. */
  predicate IsContinuation(t: Token)
  {
    |t| >= 2 && t[..2] == "##"
  }

  // ---------------------------------------------------------------------
  // Candidate groups

  /** `cand_indices` after the scan has seen the first n tokens. */
  function Groups(tokens: seq<Token>, n: nat, wholeWord: bool): seq<seq<nat>>
    requires n <= |tokens|
  {
    if n == 0 then []
    else
      var g := Groups(tokens, n - 1, wholeWord);
      var t := tokens[n - 1];
      if IsSpecial(t) then g
      else if wholeWord && |g| >= 1 && IsContinuation(t) then g[..|g| - 1] + [g[|g| - 1] + [n - 1]]
      else g + [[n - 1]]
  }

  /** The positions of the first n tokens that are not markers, ascending. */
  function NonSpecialIndices(tokens: seq<Token>, n: nat): seq<nat>
    requires n <= |tokens|
  {
    if n == 0 then []
    else NonSpecialIndices(tokens, n - 1) + (if IsSpecial(tokens[n - 1]) then [] else [n - 1])
  }

  /** The groups laid end to end. */
  function Flatten(gs: seq<seq<nat>>): seq<nat>
  {
    if gs == [] then [] else Flatten(gs[..|gs| - 1]) + gs[|gs| - 1]
  }

  lemma {:induction false} NonSpecialIndicesSpec(tokens: seq<Token>, n: nat)
    requires n <= |tokens|
    ensures forall i: nat :: i in NonSpecialIndices(tokens, n) <==> i < n && !IsSpecial(tokens[i])
    ensures StrictlyAscending(NonSpecialIndices(tokens, n))
  {
    if n > 0 {
      NonSpecialIndicesSpec(tokens, n - 1);
      var prev := NonSpecialIndices(tokens, n - 1);
      var step: seq<nat> := if IsSpecial(tokens[n - 1]) then [] else [n - 1];
      assert NonSpecialIndices(tokens, n) == prev + step;
      assert forall i :: 0 <= i < |prev| ==> prev[i] < n - 1 by {
        forall i | 0 <= i < |prev| ensures prev[i] < n - 1 {
          assert prev[i] in prev;
        }
      }
    }
  }

  lemma FlattenSnoc(gs: seq<seq<nat>>, g: seq<nat>)
    ensures Flatten(gs + [g]) == Flatten(gs) + g
  {
    assert (gs + [g])[..|gs|] == gs;
  }

  /** Appending a position to the last group appends it to the flattening. */
  lemma FlattenExtendLast(gs: seq<seq<nat>>, x: nat)
    requires gs != []
    ensures Flatten(gs[..|gs| - 1] + [gs[|gs| - 1] + [x]]) == Flatten(gs) + [x]
  {
    var init := gs[..|gs| - 1];
    var last := gs[|gs| - 1];
    FlattenSnoc(init, last + [x]);
    assert Flatten(init) + (last + [x]) == (Flatten(init) + last) + [x];
  }

  /** Every position that is not a marker lies in exactly one group, and the
      groups, read in order, list those positions in ascending order. */
  lemma {:induction false} GroupsCoverNonSpecial(tokens: seq<Token>, n: nat, wholeWord: bool)
    requires n <= |tokens|
    ensures Flatten(Groups(tokens, n, wholeWord)) == NonSpecialIndices(tokens, n)
  {
    if n > 0 {
      GroupsCoverNonSpecial(tokens, n - 1, wholeWord);
      var g := Groups(tokens, n - 1, wholeWord);
      var t := tokens[n - 1];
      var prev := NonSpecialIndices(tokens, n - 1);
      if IsSpecial(t) {
        assert NonSpecialIndices(tokens, n) == prev + [];
      } else if wholeWord && |g| >= 1 && IsContinuation(t) {
        assert NonSpecialIndices(tokens, n) == prev + [n - 1];
        FlattenExtendLast(g, n - 1);
      } else {
        assert NonSpecialIndices(tokens, n) == prev + [n - 1];
        assert Groups(tokens, n, wholeWord) == g + [[n - 1]];
        FlattenSnoc(g, [n - 1]);
      }
    }
  }

  /** A group is non-empty, ascending, and holds positions below `bound`
      that are not markers. */
  ghost predicate ValidGroup(g: seq<nat>, tokens: seq<Token>, bound: nat)
  {
    && |g| > 0
    && StrictlyAscending(g)
    && forall x :: x in g ==> x < bound && x < |tokens| && !IsSpecial(tokens[x])
  }

  /** Every group is valid and no position is in two groups. */
  ghost predicate WellFormedGroups(gs: seq<seq<nat>>, tokens: seq<Token>, bound: nat)
  {
    && (forall j :: 0 <= j < |gs| ==> ValidGroup(gs[j], tokens, bound))
    && (forall j, k :: 0 <= j < |gs| && 0 <= k < |gs| && j != k ==> Elems(gs[j]) !! Elems(gs[k]))
  }

  /** Adding position n - 1 to the last group keeps the groups well formed. */
  lemma ExtendLastWellFormed(g: seq<seq<nat>>, tokens: seq<Token>, n: nat)
    requires 0 < n <= |tokens| && !IsSpecial(tokens[n - 1])
    requires WellFormedGroups(g, tokens, n - 1) && g != []
    ensures WellFormedGroups(g[..|g| - 1] + [g[|g| - 1] + [n - 1]], tokens, n)
  {
    var r := g[..|g| - 1] + [g[|g| - 1] + [n - 1]];
    var last := g[|g| - 1];
    var ext := last + [n - 1];
    assert forall j :: 0 <= j < |g| ==> n - 1 !in Elems(g[j]);
    assert ValidGroup(last, tokens, n - 1);
    forall i, j | 0 <= i < j < |ext| ensures ext[i] < ext[j] {
      assert ext[i] == last[i] && last[i] in last;
      if j < |last| {
        assert ext[j] == last[j];
      }
    }
    forall x | x in ext ensures x < n && x < |tokens| && !IsSpecial(tokens[x]) {
      if x != n - 1 {
        assert x in last;
      }
    }
    assert Elems(ext) == Elems(last) + {n - 1};
    assert forall j :: 0 <= j < |g| - 1 ==> r[j] == g[j];
    assert r[|g| - 1] == ext;
  }

  /** Opening a new group for position n - 1 keeps the groups well formed. */
  lemma AppendGroupWellFormed(g: seq<seq<nat>>, tokens: seq<Token>, n: nat)
    requires 0 < n <= |tokens| && !IsSpecial(tokens[n - 1])
    requires WellFormedGroups(g, tokens, n - 1)
    ensures WellFormedGroups(g + [[n - 1]], tokens, n)
  {
    var r := g + [[n - 1]];
    assert forall j :: 0 <= j < |g| ==> ValidGroup(g[j], tokens, n);
    assert forall j :: 0 <= j < |g| ==> n - 1 !in Elems(g[j]);
    assert Elems([n - 1]) == {n - 1};
    assert ValidGroup([n - 1], tokens, n);
    assert forall j :: 0 <= j < |g| ==> r[j] == g[j];
  }

  lemma {:induction false} GroupsWellFormed(tokens: seq<Token>, n: nat, wholeWord: bool)
    requires n <= |tokens|
    ensures WellFormedGroups(Groups(tokens, n, wholeWord), tokens, n)
  {
    if n > 0 {
      GroupsWellFormed(tokens, n - 1, wholeWord);
      var g := Groups(tokens, n - 1, wholeWord);
      var t := tokens[n - 1];
      if IsSpecial(t) {
        assert forall j :: 0 <= j < |g| ==> ValidGroup(g[j], tokens, n);
      } else if wholeWord && |g| >= 1 && IsContinuation(t) {
        ExtendLastWellFormed(g, tokens, n);
      } else {
        AppendGroupWellFormed(g, tokens, n);
      }
    }
  }

  /** The shape of the groups: no group is empty; without whole-word masking
      every group is one position; with it, every position after the first of
      a group holds a continuation piece, and every group but the first
      starts with a piece that is not one. */
  ghost predicate FollowsWords(gs: seq<seq<nat>>, tokens: seq<Token>, wholeWord: bool)
  {
    && (forall j :: 0 <= j < |gs| ==> |gs[j]| > 0)
    && (!wholeWord ==> forall j :: 0 <= j < |gs| ==> |gs[j]| == 1)
    && (wholeWord ==> forall j, k :: 0 <= j < |gs| && 0 < k < |gs[j]| ==>
          gs[j][k] < |tokens| && IsContinuation(tokens[gs[j][k]]))
    && (wholeWord ==> forall j :: 0 < j < |gs| && |gs[j]| > 0 ==>
          gs[j][0] < |tokens| && !IsContinuation(tokens[gs[j][0]]))
  }

  lemma {:induction false} GroupsFollowWords(tokens: seq<Token>, n: nat, wholeWord: bool)
    requires n <= |tokens|
    ensures FollowsWords(Groups(tokens, n, wholeWord), tokens, wholeWord)
  {
    if n > 0 {
      GroupsFollowWords(tokens, n - 1, wholeWord);
      var g := Groups(tokens, n - 1, wholeWord);
      var t := tokens[n - 1];
      if IsSpecial(t) {
        assert Groups(tokens, n, wholeWord) == g;
      } else if wholeWord && |g| >= 1 && IsContinuation(t) {
        ExtendLastFollowsWords(g, tokens, n);
        assert Groups(tokens, n, wholeWord) == g[..|g| - 1] + [g[|g| - 1] + [n - 1]];
      } else {
        AppendFollowsWords(g, tokens, n, wholeWord);
        assert Groups(tokens, n, wholeWord) == g + [[n - 1]];
      }
    }
  }

  /** A continuation piece joins the last group without breaking the word
      shape. */
  lemma ExtendLastFollowsWords(g: seq<seq<nat>>, tokens: seq<Token>, n: nat)
    requires 0 < n <= |tokens| && IsContinuation(tokens[n - 1])
    requires FollowsWords(g, tokens, true) && g != []
    ensures FollowsWords(g[..|g| - 1] + [g[|g| - 1] + [n - 1]], tokens, true)
  {
    var r := g[..|g| - 1] + [g[|g| - 1] + [n - 1]];
    assert forall j :: 0 <= j < |g| - 1 ==> r[j] == g[j];
    assert r[|g| - 1] == g[|g| - 1] + [n - 1];
    assert r[|g| - 1][0] == g[|g| - 1][0];
  }

  /** A new singleton group keeps the word shape, provided that with
      whole-word grouping it does not open with a continuation piece after
      an earlier group. */
  lemma AppendFollowsWords(g: seq<seq<nat>>, tokens: seq<Token>, n: nat, wholeWord: bool)
    requires 0 < n <= |tokens| && FollowsWords(g, tokens, wholeWord)
    requires wholeWord && g != [] ==> !IsContinuation(tokens[n - 1])
    ensures FollowsWords(g + [[n - 1]], tokens, wholeWord)
  {
    var r := g + [[n - 1]];
    assert forall j :: 0 <= j < |g| ==> r[j] == g[j];
    assert r[|g|] == [n - 1];
  }

  /** The candidate-grouping loop of `create_masked_lm_predictions`. */
  method CandidateIndices(tokens: seq<Token>, wholeWordMask: bool) returns (cand: seq<seq<nat>>)
    ensures cand == Groups(tokens, |tokens|, wholeWordMask)
  {
    cand := [];
    var i := 0;
    while i < |tokens|
      invariant 0 <= i <= |tokens|
      invariant cand == Groups(tokens, i, wholeWordMask)
    {
      var token := tokens[i];
      if token == ClsToken || token == SepToken {
        // markers are never candidates
      } else if wholeWordMask && |cand| >= 1 && IsContinuation(token) {
        cand := cand[..|cand| - 1] + [cand[|cand| - 1] + [i]];
      } else {
        cand := cand + [[i]];
      }
      i := i + 1;
    }
  }

  // ---------------------------------------------------------------------
  // Budget, replacement and the masked records

  /** `min(max_predictions_per_seq, max(1, rounded))`, where `rounded` is
      `int(round(len(tokens) * masked_lm_prob))`. */
  function NumToMask(maxPredictionsPerSeq: int, rounded: int): (k: int)
    ensures k <= maxPredictionsPerSeq
    ensures k <= rounded || k <= 1
    ensures k == maxPredictionsPerSeq || k == rounded || k == 1
    ensures k == maxPredictionsPerSeq || (k >= 1 && k >= rounded)
    ensures k < 0 <==> maxPredictionsPerSeq < 0
  {
    var atLeastOne := if rounded < 1 then 1 else rounded;
    if maxPredictionsPerSeq < atLeastOne then maxPredictionsPerSeq else atLeastOne
  }

  /** The letters a replaced token may be drawn from. */
  const ReplacementAlphabet: seq<Token> := ["a", "c", "t", "g"]

  /** What a masked position becomes: `[MASK]` (the 80% case), the original
      token (10%) or a letter of the alphabet chosen by a draw (10%). */
  datatype Replacement = ReplaceWithMask | KeepOriginal | ReplaceWithLetter(draw: nat)

  function Replace(r: Replacement, original: Token): (t: Token)
    ensures t == MaskToken || t == original || t in ReplacementAlphabet
  {
    match r
    case ReplaceWithMask => MaskToken
    case KeepOriginal => original
    case ReplaceWithLetter(d) => ReplacementAlphabet[d % |ReplacementAlphabet|]
  }

  /** `MaskedLmInstance(index, label)`. */
  datatype MaskedLm = MaskedLm(index: nat, labelToken: Token)

  function IndexSet(ms: seq<MaskedLm>): set<nat>
  {
    set m | m in ms :: m.index
  }

  lemma IndexSetSnoc(ms: seq<MaskedLm>, m: MaskedLm)
    ensures IndexSet(ms + [m]) == IndexSet(ms) + {m.index}
  {
    var l := IndexSet(ms + [m]);
    var r := IndexSet(ms) + {m.index};
    forall x | x in l ensures x in r {
      var y :| y in ms + [m] && y.index == x;
      if y != m {
        assert y in ms;
      }
    }
    forall x | x in r ensures x in l {
      if x != m.index {
        var y :| y in ms && y.index == x;
        assert y in ms + [m];
      } else {
        assert m in ms + [m];
      }
    }
  }

  predicate SortedByIndex(ms: seq<MaskedLm>)
  {
    forall i, j :: 0 <= i < j < |ms| ==> ms[i].index <= ms[j].index
  }

  predicate DistinctIndices(ms: seq<MaskedLm>)
  {
    forall i, j :: 0 <= i < j < |ms| ==> ms[i].index != ms[j].index
  }

  function InsertByIndex(m: MaskedLm, ms: seq<MaskedLm>): (r: seq<MaskedLm>)
    requires SortedByIndex(ms)
    ensures SortedByIndex(r)
    ensures multiset(r) == multiset(ms) + multiset{m}
  {
    if ms == [] || m.index <= ms[0].index then
      InsertAtFront(m, ms);
      [m] + ms
    else
      SortedTail(ms);
      var rest := InsertByIndex(m, ms[1..]);
      assert ms == [ms[0]] + ms[1..];
      LowerBoundKept(ms[0].index, m, ms[1..], rest);
      ConsSorted(ms[0], rest);
      [ms[0]] + rest
  }

  /** A record no later than the head of a sorted list can go in front. */
  lemma InsertAtFront(m: MaskedLm, ms: seq<MaskedLm>)
    requires SortedByIndex(ms) && (ms == [] || m.index <= ms[0].index)
    ensures SortedByIndex([m] + ms)
  {
    var r := [m] + ms;
    forall i, j | 0 <= i < j < |r| ensures r[i].index <= r[j].index {
      assert r[j] == ms[j - 1];
      if i > 0 {
        assert r[i] == ms[i - 1];
      }
    }
  }

  /** The tail of a sorted list is sorted and bounded below by its head. */
  lemma SortedTail(ms: seq<MaskedLm>)
    requires SortedByIndex(ms) && ms != []
    ensures SortedByIndex(ms[1..])
    ensures forall x :: x in ms[1..] ==> ms[0].index <= x.index
  {
  }

  /** Inserting a record at or above a lower bound keeps the bound. */
  lemma LowerBoundKept(lo: int, m: MaskedLm, ms: seq<MaskedLm>, rest: seq<MaskedLm>)
    requires lo <= m.index
    requires forall x :: x in ms ==> lo <= x.index
    requires multiset(rest) == multiset(ms) + multiset{m}
    ensures forall x :: x in rest ==> lo <= x.index
  {
    forall x | x in rest ensures lo <= x.index {
      assert x in multiset(rest);
      if x != m {
        assert x in multiset(ms);
      }
    }
  }

  /** A record no later than any of a sorted list can head it. */
  lemma ConsSorted(h: MaskedLm, rest: seq<MaskedLm>)
    requires SortedByIndex(rest)
    requires forall x :: x in rest ==> h.index <= x.index
    ensures SortedByIndex([h] + rest)
  {
    var r := [h] + rest;
    forall i, j | 0 <= i < j < |r| ensures r[i].index <= r[j].index {
      assert r[j] == rest[j - 1];
      if i > 0 {
        assert r[i] == rest[i - 1];
      } else {
        assert rest[j - 1] in rest;
      }
    }
  }

  /** `sorted(masked_lms, key=lambda x: x.index)`. */
  function SortByIndex(ms: seq<MaskedLm>): (r: seq<MaskedLm>)
    ensures SortedByIndex(r)
    ensures multiset(r) == multiset(ms)
  {
    if ms == [] then []
    else
      assert ms == [ms[0]] + ms[1..];
      InsertByIndex(ms[0], SortByIndex(ms[1..]))
  }

  predicate StrictByIndex(ms: seq<MaskedLm>)
  {
    forall i, j :: 0 <= i < j < |ms| ==> ms[i].index < ms[j].index
  }

  lemma {:induction false} InsertKeepsStrict(m: MaskedLm, ms: seq<MaskedLm>)
    requires SortedByIndex(ms) && StrictByIndex(ms)
    requires forall x :: x in ms ==> x.index != m.index
    ensures StrictByIndex(InsertByIndex(m, ms))
  {
    if ms == [] || m.index <= ms[0].index {
      if ms != [] {
        assert ms[0] in ms;
      }
      ConsStrict(m, ms);
    } else {
      SortedTail(ms);
      StrictTail(ms);
      InsertKeepsStrict(m, ms[1..]);
      var rest := InsertByIndex(m, ms[1..]);
      assert ms == [ms[0]] + ms[1..];
      LowerBoundKept(ms[0].index + 1, m, ms[1..], rest);
      ConsStrict(ms[0], rest);
    }
  }

  /** The tail of a strictly ordered list is strictly ordered and lies
      strictly above its head. */
  lemma StrictTail(ms: seq<MaskedLm>)
    requires StrictByIndex(ms) && ms != []
    ensures StrictByIndex(ms[1..])
    ensures forall x :: x in ms[1..] ==> ms[0].index < x.index
  {
  }

  /** A record strictly before the first of a strictly ordered list can head
      it. */
  lemma ConsStrict(h: MaskedLm, rest: seq<MaskedLm>)
    requires StrictByIndex(rest)
    requires rest != [] ==> h.index < rest[0].index
    ensures StrictByIndex([h] + rest)
  {
    var r := [h] + rest;
    forall i, j | 0 <= i < j < |r| ensures r[i].index < r[j].index {
      assert r[j] == rest[j - 1];
      if i > 0 {
        assert r[i] == rest[i - 1];
      }
    }
  }

  /** Sorting records with distinct positions orders them strictly. */
  lemma {:induction false} SortStrict(ms: seq<MaskedLm>)
    requires DistinctIndices(ms)
    ensures StrictByIndex(SortByIndex(ms))
  {
    if ms != [] {
      SortStrict(ms[1..]);
      var rest := SortByIndex(ms[1..]);
      forall x | x in rest ensures x.index != ms[0].index {
        assert x in multiset(ms[1..]);
        var j :| 0 <= j < |ms[1..]| && ms[1..][j] == x;
        assert ms[j + 1] == x;
      }
      InsertKeepsStrict(ms[0], rest);
    }
  }

  // ---------------------------------------------------------------------
  // The masking pass

  /** The bookkeeping of the greedy pass: `covered` holds exactly the masked
      positions, each masked once, each record carrying the original token,
      each masked position rewritten by its replacement, and every other
      position untouched. */
  ghost predicate MaskState(masked: seq<MaskedLm>, covered: set<nat>, orig: seq<Token>, now: seq<Token>,
                            replacement: Random.Stream<Replacement>)
  {
    && |now| == |orig|
    && covered == IndexSet(masked)
    && DistinctIndices(masked)
    && (forall m :: 0 <= m < |masked| ==>
          && masked[m].index < |orig|
          && !IsSpecial(orig[masked[m].index])
          && masked[m].labelToken == orig[masked[m].index]
          && now[masked[m].index] == Replace(replacement.At(m), orig[masked[m].index]))
    && (forall i :: 0 <= i < |orig| && i !in covered ==> now[i] == orig[i])
  }

  /** Masking one more uncovered position keeps the bookkeeping. */
  lemma MaskStepKeepsState(masked: seq<MaskedLm>, covered: set<nat>, orig: seq<Token>, before: seq<Token>,
                           replacement: Random.Stream<Replacement>, index: nat)
    requires MaskState(masked, covered, orig, before, replacement)
    requires index < |orig| && !IsSpecial(orig[index]) && index !in covered
    ensures MaskState(masked + [MaskedLm(index, before[index])], covered + {index}, orig,
                      before[index := Replace(replacement.At(|masked|), before[index])], replacement)
  {
    var m := MaskedLm(index, before[index]);
    var masked' := masked + [m];
    var after := before[index := Replace(replacement.At(|masked|), before[index])];
    IndexSetSnoc(masked, m);
    assert before[index] == orig[index];
    forall a | 0 <= a < |masked| ensures masked[a].index != index {
      assert masked[a] in masked;
    }
    forall a | 0 <= a < |masked'|
      ensures after[masked'[a].index] == Replace(replacement.At(a), orig[masked'[a].index])
    {
      if a < |masked| {
        assert masked'[a] == masked[a];
      }
    }
  }

  /** Between two bookkeeping states where the later one keeps the earlier
      records and covers `added` besides, only the positions of `added` have
      changed. */
  lemma MaskStateFrame(masked0: seq<MaskedLm>, covered0: set<nat>, masked: seq<MaskedLm>, covered: set<nat>,
                       orig: seq<Token>, before: seq<Token>, after: seq<Token>,
                       replacement: Random.Stream<Replacement>, added: set<nat>)
    requires MaskState(masked0, covered0, orig, before, replacement)
    requires MaskState(masked, covered, orig, after, replacement)
    requires |masked0| <= |masked| && masked[..|masked0|] == masked0
    requires covered == covered0 + added
    ensures forall i :: 0 <= i < |orig| && i !in added ==> after[i] == before[i]
  {
    forall i | 0 <= i < |orig| && i !in added
      ensures after[i] == before[i]
    {
      if i in covered0 {
        var r :| r in masked0 && r.index == i;
        var m :| 0 <= m < |masked0| && masked0[m] == r;
        assert masked[m] == masked0[m];
      }
    }
  }

  /** Masks every position of one accepted group (the inner `for index in
      index_set` loop). */
  method MaskGroup(tokens: array<Token>, group: seq<nat>, masked0: seq<MaskedLm>, covered0: set<nat>,
                   replacement: Random.Stream<Replacement>, ghost orig: seq<Token>)
    returns (masked: seq<MaskedLm>, covered: set<nat>)
    requires MaskState(masked0, covered0, orig, tokens[..], replacement)
    requires StrictlyAscending(group)
    requires forall x :: x in group ==> x < tokens.Length && !IsSpecial(orig[x])
    requires Elems(group) !! covered0
    modifies tokens
    ensures MaskState(masked, covered, orig, tokens[..], replacement)
    ensures covered == covered0 + Elems(group)
    ensures |masked| == |masked0| + |group|
    ensures masked[..|masked0|] == masked0
    ensures forall p :: 0 <= p < |group| ==> masked[|masked0| + p].index == group[p]
    ensures forall i :: 0 <= i < tokens.Length && i !in Elems(group) ==> tokens[i] == old(tokens[i])
  {
    ghost var before := tokens[..];
    masked, covered := masked0, covered0;
    var j := 0;
    while j < |group|
      invariant 0 <= j <= |group|
      invariant MaskState(masked, covered, orig, tokens[..], replacement)
      invariant covered == covered0 + Elems(group[..j])
      invariant |masked| == |masked0| + j
      invariant forall x :: x in group[j..] ==> x !in covered
      invariant masked[..|masked0|] == masked0
      invariant forall p :: 0 <= p < j ==> masked[|masked0| + p].index == group[p]
    {
      var index := group[j];
      assert index in group;
      MaskStepKeepsState(masked, covered, orig, tokens[..], replacement, index);
      ghost var before := tokens[..];
      covered := covered + {index};
      var maskedToken := Replace(replacement.At(|masked|), tokens[index]);
      ghost var masked1 := masked;
      masked := masked + [MaskedLm(index, tokens[index])];
      assert masked[..|masked0|] == masked1[..|masked0|];
      tokens[index] := maskedToken;
      assert tokens[..] == before[index := maskedToken];
      assert group[..j + 1] == group[..j] + [index];
      forall x | x in group[j + 1..] ensures x !in covered {
        var p :| j + 1 <= p < |group| && group[p] == x;
        assert group[j..][p - j] == x;
      }
      j := j + 1;
    }
    assert group[..j] == group;
    MaskStateFrame(masked0, covered0, masked, covered, orig, before, tokens[..], replacement, Elems(group));
  }

  /** The `is_any_index_covered` scan: does the group share a position with
      the positions masked so far? */
  method AnyCovered(group: seq<nat>, covered: set<nat>) returns (found: bool)
    ensures found <==> !(Elems(group) !! covered)
  {
    found := false;
    var j := 0;
    while j < |group|
      invariant 0 <= j <= |group|
      invariant forall p :: 0 <= p < j ==> group[p] !in covered
    {
      if group[j] in covered {
        found := true;
        assert group[j] in Elems(group);
        break;
      }
      j := j + 1;
    }
  }

  /** Carries the well-formedness of the candidate groups over to their
      shuffled order. */
  lemma ShuffledWellFormed(cand: seq<seq<nat>>, shuffled: seq<seq<nat>>, perm: seq<nat>, tokens: seq<Token>)
    requires WellFormedGroups(cand, tokens, |tokens|)
    requires |shuffled| == |cand| && Random.IsPermutation(perm, |cand|)
    requires forall i :: 0 <= i < |cand| ==> shuffled[i] == cand[perm[i]]
    ensures WellFormedGroups(shuffled, tokens, |tokens|)
  {
    forall j, k | 0 <= j < |shuffled| && 0 <= k < |shuffled| && j != k
      ensures Elems(shuffled[j]) !! Elems(shuffled[k])
    {
      assert perm[j] != perm[k];
    }
    forall j | 0 <= j < |shuffled|
      ensures ValidGroup(shuffled[j], tokens, |tokens|)
    {
      assert perm[j] < |cand|;
    }
  }

  function Positions(ms: seq<MaskedLm>): (ps: seq<nat>)
    ensures |ps| == |ms| && forall i :: 0 <= i < |ms| ==> ps[i] == ms[i].index
  {
    seq(|ms|, i requires 0 <= i < |ms| => ms[i].index)
  }

  function Labels(ms: seq<MaskedLm>): (ls: seq<Token>)
    ensures |ls| == |ms| && forall i :: 0 <= i < |ms| ==> ls[i] == ms[i].labelToken
  {
    seq(|ms|, i requires 0 <= i < |ms| => ms[i].labelToken)
  }

  /** Sorting keeps the records: every sorted record is one of the masked
      ones, and the positions reported are exactly the covered positions. */
  lemma SortedReport(masked: seq<MaskedLm>, sorted: seq<MaskedLm>)
    requires multiset(sorted) == multiset(masked)
    ensures |sorted| == |masked|
    ensures forall i :: 0 <= i < |sorted| ==> exists m :: 0 <= m < |masked| && masked[m] == sorted[i]
    ensures Elems(Positions(sorted)) == IndexSet(masked)
  {
    assert |multiset(sorted)| == |multiset(masked)|;
    forall i | 0 <= i < |sorted|
      ensures exists m :: 0 <= m < |masked| && masked[m] == sorted[i]
    {
      assert sorted[i] in multiset(masked);
    }
    var ps := Positions(sorted);
    forall x | x in IndexSet(masked) ensures x in ps {
      var m :| m in masked && m.index == x;
      assert m in multiset(sorted);
      var i :| 0 <= i < |sorted| && sorted[i] == m;
      assert ps[i] == x;
    }
    forall x | x in ps ensures x in IndexSet(masked) {
      var i :| 0 <= i < |ps| && ps[i] == x;
      assert sorted[i] in multiset(masked);
    }
  }

  /** The sorted report of a masking state: strictly ascending positions,
      exactly the covered ones, each with its original token as label and its
      replacement in place, every other position untouched. */
  lemma ReportMatchesState(masked: seq<MaskedLm>, covered: set<nat>, orig: seq<Token>, now: seq<Token>,
                           replacement: Random.Stream<Replacement>)
    requires MaskState(masked, covered, orig, now, replacement)
    ensures var ps := Positions(SortByIndex(masked));
            var ls := Labels(SortByIndex(masked));
            && |ps| == |ls| == |masked|
            && StrictlyAscending(ps)
            && Elems(ps) == covered
            && (forall k :: 0 <= k < |ps| ==>
                  && ps[k] < |orig| && !IsSpecial(orig[ps[k]]) && ls[k] == orig[ps[k]]
                  && exists n :: now[ps[k]] == Replace(replacement.At(n), ls[k]))
            && (forall i :: 0 <= i < |orig| && i !in ps ==> now[i] == orig[i])
  {
    var sorted := SortByIndex(masked);
    SortStrict(masked);
    SortedReport(masked, sorted);
    var ps, ls := Positions(sorted), Labels(sorted);
    forall k | 0 <= k < |ps|
      ensures && ps[k] < |orig| && !IsSpecial(orig[ps[k]]) && ls[k] == orig[ps[k]]
              && exists n :: now[ps[k]] == Replace(replacement.At(n), ls[k])
    {
      var m :| 0 <= m < |masked| && masked[m] == sorted[k];
      assert now[ps[k]] == Replace(replacement.At(m), ls[k]);
    }
  }

  /** A candidate group is one of the shuffled groups. */
  lemma ShuffledHoldsGroup(cand: seq<seq<nat>>, shuffled: seq<seq<nat>>, g: seq<nat>)
    requires multiset(shuffled) == multiset(cand) && g in cand
    ensures exists a :: 0 <= a < |shuffled| && shuffled[a] == g
  {
    assert g in multiset(shuffled);
  }

  /** The greedy pass after the first k shuffled groups, with `count`
      positions masked and `covered` the masked positions: each group seen so
      far is wholly masked or untouched, and an untouched one did not fit the
      budget; the groups not yet seen are untouched. */
  ghost predicate GreedyProgress(shuffled: seq<seq<nat>>, k: nat, covered: set<nat>, count: nat, numToMask: nat)
  {
    && k <= |shuffled|
    && (forall a :: 0 <= a < k ==> Elems(shuffled[a]) <= covered || Elems(shuffled[a]) !! covered)
    && (forall a :: 0 <= a < k && Elems(shuffled[a]) !! covered ==> count + |shuffled[a]| > numToMask)
    && (forall a :: k <= a < |shuffled| ==> Elems(shuffled[a]) !! covered)
  }

  /** Skipping a group that does not fit the budget keeps the progress. */
  lemma SkipKeepsProgress(shuffled: seq<seq<nat>>, k: nat, covered: set<nat>, count: nat, numToMask: nat)
    requires GreedyProgress(shuffled, k, covered, count, numToMask) && k < |shuffled|
    requires count + |shuffled[k]| > numToMask
    ensures GreedyProgress(shuffled, k + 1, covered, count, numToMask)
  {
  }

  /** Masking the whole k-th group keeps the progress: the other groups are
      disjoint from it, and the count only grows. */
  lemma TakeKeepsProgress(shuffled: seq<seq<nat>>, tokens: seq<Token>, k: nat, covered0: set<nat>, count0: nat,
                          covered: set<nat>, count: nat, numToMask: nat)
    requires GreedyProgress(shuffled, k, covered0, count0, numToMask) && k < |shuffled|
    requires WellFormedGroups(shuffled, tokens, |tokens|)
    requires covered == covered0 + Elems(shuffled[k]) && count0 <= count
    ensures GreedyProgress(shuffled, k + 1, covered, count, numToMask)
  {
    forall a | 0 <= a < |shuffled| && a != k && Elems(shuffled[a]) !! covered0
      ensures Elems(shuffled[a]) !! covered
    {
      assert Elems(shuffled[a]) !! Elems(shuffled[k]);
    }
    assert ValidGroup(shuffled[k], tokens, |tokens|);
    assert shuffled[k][0] in Elems(shuffled[k]);
    forall a | 0 <= a < k + 1 && Elems(shuffled[a]) !! covered
      ensures count + |shuffled[a]| > numToMask
    {
      assert Elems(shuffled[a]) !! covered0;
    }
  }

  /** When the pass ends, because every group was seen or the budget is
      spent, every group is wholly masked or untouched and an untouched one
      would not have fitted. */
  lemma ProgressAtEnd(shuffled: seq<seq<nat>>, tokens: seq<Token>, k: nat, covered: set<nat>, count: nat,
                      numToMask: nat, a: nat)
    requires GreedyProgress(shuffled, k, covered, count, numToMask)
    requires WellFormedGroups(shuffled, tokens, |tokens|)
    requires k == |shuffled| || count >= numToMask
    requires a < |shuffled|
    ensures Elems(shuffled[a]) <= covered || Elems(shuffled[a]) !! covered
    ensures Elems(shuffled[a]) !! covered ==> count + |shuffled[a]| > numToMask
  {
    assert ValidGroup(shuffled[a], tokens, |tokens|);
  }

  /** The greedy pass over the shuffled groups (the outer `for index_set in
      cand_indices` loop): a group is masked whole when it fits the budget
      and none of its positions is covered yet; the pass stops once the
      budget is spent. */
  method GreedyMask(tokens: array<Token>, shuffled: seq<seq<nat>>, numToMask: nat,
                    replacement: Random.Stream<Replacement>, ghost orig: seq<Token>)
    returns (masked: seq<MaskedLm>, covered: set<nat>)
    requires tokens[..] == orig
    requires WellFormedGroups(shuffled, orig, |orig|)
    modifies tokens
    ensures MaskState(masked, covered, orig, tokens[..], replacement)
    ensures |masked| <= numToMask
    ensures forall a :: 0 <= a < |shuffled| ==>
              && (Elems(shuffled[a]) <= covered || Elems(shuffled[a]) !! covered)
              && (Elems(shuffled[a]) !! covered ==> |masked| + |shuffled[a]| > numToMask)
  {
    masked, covered := [], {};
    var k := 0;
    // the budget test that opens each iteration is the loop guard
    while k < |shuffled| && |masked| < numToMask
      invariant MaskState(masked, covered, orig, tokens[..], replacement)
      invariant |masked| <= numToMask
      invariant GreedyProgress(shuffled, k, covered, |masked|, numToMask)
    {
      var indexSet := shuffled[k];
      assert ValidGroup(indexSet, orig, |orig|);
      // The covered test has no effect of its own, so it is evaluated
      // together with the budget test.
      var anyCovered := AnyCovered(indexSet, covered);
      if |masked| + |indexSet| <= numToMask && !anyCovered {
        ghost var coveredBefore, countBefore := covered, |masked|;
        masked, covered := MaskGroup(tokens, indexSet, masked, covered, replacement, orig);
        TakeKeepsProgress(shuffled, orig, k, coveredBefore, countBefore, covered, |masked|, numToMask);
      } else {
        SkipKeepsProgress(shuffled, k, covered, |masked|, numToMask);
      }
      k := k + 1;
    }
    forall a | 0 <= a < |shuffled|
      ensures Elems(shuffled[a]) <= covered || Elems(shuffled[a]) !! covered
      ensures Elems(shuffled[a]) !! covered ==> |masked| + |shuffled[a]| > numToMask
    {
      ProgressAtEnd(shuffled, orig, k, covered, |masked|, numToMask, a);
    }
  }

  /** What the masking pass leaves behind, for the pre-mask tokens `orig`,
      the tokens `now` after it, and the reported positions and labels: at
      most `numToMask` positions, ascending, each a non-marker position whose
      label is its original token and whose token was replaced; every other
      token untouched; every candidate group masked whole or not at all, and
      an untouched group one that would not have fitted the budget. */
  ghost predicate MaskedOutcome(orig: seq<Token>, now: seq<Token>, positions: seq<nat>, labels: seq<Token>,
                                numToMask: int, wholeWordMask: bool, replacement: Random.Stream<Replacement>)
  {
    && |now| == |orig|
    && |positions| == |labels| <= numToMask
    && StrictlyAscending(positions)
    && (forall k :: 0 <= k < |positions| ==>
          && positions[k] < |orig|
          && !IsSpecial(orig[positions[k]])
          && labels[k] == orig[positions[k]])
    && (forall k :: 0 <= k < |positions| ==>
          exists n :: now[positions[k]] == Replace(replacement.At(n), labels[k]))
    && (forall i :: 0 <= i < |orig| && i !in positions ==> now[i] == orig[i])
    && (forall g {:trigger g in Groups(orig, |orig|, wholeWordMask)} :: g in Groups(orig, |orig|, wholeWordMask) ==>
          Elems(g) <= Elems(positions) || Elems(g) !! Elems(positions))
    && (forall g {:trigger g in Groups(orig, |orig|, wholeWordMask)} ::
          g in Groups(orig, |orig|, wholeWordMask) && Elems(g) !! Elems(positions) ==>
          |positions| + |g| > numToMask)
  }

  /** `create_masked_lm_predictions`, with `rounded` standing for
      `int(round(len(tokens) * masked_lm_prob))`, `shuffleDraw` driving the
      shuffle of the candidate groups and `replacement.At(k)` deciding what the
      k-th masked token becomes. A negative `max_predictions_per_seq` makes
      `num_to_mask` negative: nothing is masked and the closing assertion
      `len(masked_lms) <= num_to_mask` fails. */
  method CreateMaskedLmPredictions(tokens: array<Token>, rounded: int, maxPredictionsPerSeq: int,
                                   wholeWordMask: bool, shuffleDraw: Random.Stream<nat>,
                                   replacement: Random.Stream<Replacement>)
    returns (r: Result<(seq<nat>, seq<Token>)>)
    modifies tokens
    ensures r.Err? <==> maxPredictionsPerSeq < 0
    ensures r.Err? ==> r.error == AssertionError && tokens[..] == old(tokens[..])
    ensures r.Ok? ==> MaskedOutcome(old(tokens[..]), tokens[..], r.value.0, r.value.1,
                                    NumToMask(maxPredictionsPerSeq, rounded), wholeWordMask, replacement)
  {
    ghost var orig := tokens[..];
    var cand := CandidateIndices(tokens[..], wholeWordMask);
    GroupsWellFormed(orig, |orig|, wholeWordMask);
    var numToMask := NumToMask(maxPredictionsPerSeq, rounded);
    var shuffled;
    ghost var perm;
    shuffled, perm := Random.Shuffle(cand, shuffleDraw);
    if numToMask < 0 {
      // the budget test stops the pass before any group, and the
      // assertion after it fails
      return Err(AssertionError);
    }
    ShuffledWellFormed(cand, shuffled, perm, orig);

    var masked, covered := GreedyMask(tokens, shuffled, numToMask, replacement, orig);

    var sorted := SortByIndex(masked);
    var positions := Positions(sorted);
    var labels := Labels(sorted);
    ReportMatchesState(masked, covered, orig, tokens[..], replacement);
    forall g | g in Groups(orig, |orig|, wholeWordMask)
      ensures Elems(g) <= covered || Elems(g) !! covered
      ensures Elems(g) !! covered ==> |masked| + |g| > numToMask
    {
      ShuffledHoldsGroup(cand, shuffled, g);
      var a :| 0 <= a < |shuffled| && shuffled[a] == g;
    }
    r := Ok((positions, labels));
  }
}
