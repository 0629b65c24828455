/** `create_instances_from_document`: walk the sentences of one document,
    close a chunk when it reaches the target length or the document ends,
    split the chunk into segments A and B (B either the true continuation or
    text from another document), and turn each pair into a training
    instance: `[CLS] A [SEP] B [SEP]` with segment ids, masked-LM
    predictions and n-gram annotations. */
module Instances {
  import opened Corpus
  import Random
  import DocumentStore
  import Truncation
  import Masking
  import Ngrams

  /** The generation parameters. `maskedCount(n)` stands for
      `int(round(n * masked_lm_prob))`. */
  datatype Config = Config(
    maxSeqLength: int,
    maxNgramInSeq: int,
    maxPredictionsPerSeq: int,
    wholeWordMask: bool,
    maskedCount: nat -> int,
    ngramDict: Ngrams.NgramDict)

  /** The random outcomes consumed while one chunk is turned into an
      instance. */
  datatype ChunkDraws = ChunkDraws(
    splitDraw: nat,                                   // randrange(1, len(current_chunk))
    randomNextCoin: bool,                             // random() < 0.5
    sampleDraw: nat,                                  // the draw inside sample_doc
    startDraw: nat,                                   // randrange(0, len(random_document))
    truncationCoin: Random.Stream<bool>,              // the coins of truncate_seq_pair
    maskShuffle: Random.Stream<nat>,                  // the shuffle of the candidate groups
    replacement: Random.Stream<Masking.Replacement>,  // what each masked token becomes
    ngramShuffle: Random.Stream<nat>)                 // the shuffle of the n-gram matches

  /** The random outcomes of one call: the short-sequence coin, the drawn
      target length, and the draws of each instance, listed for the first
      ones and `laterChunks` for every one after, as in `Random.Stream`. */
  datatype Draws = Draws(shortSeq: bool, targetDraw: nat, chunks: seq<ChunkDraws>, laterChunks: ChunkDraws)
  {
    /** The draws of the k-th instance. */
    function At(k: nat): ChunkDraws
    {
      if k < |chunks| then chunks[k] else laterChunks
    }
  }

  /** One training instance, field for field. */
  datatype Instance = Instance(
    tokens: seq<Token>,
    segmentIds: seq<nat>,
    isRandomNext: bool,
    maskedLmPositions: seq<nat>,
    maskedLmLabels: seq<Token>,
    ngramIds: seq<int>,
    ngramPositions: seq<nat>,
    ngramLengths: seq<nat>,
    ngramTuples: seq<seq<Token>>,
    ngramSegmentIds: seq<nat>)

  // ---------------------------------------------------------------------
  // Layout of an instance

  /** `["[CLS]"] + tokens_a + ["[SEP]"] + tokens_b + ["[SEP]"]`; both segments
      can be read back from their positions. */
  function Assemble(a: seq<Token>, b: seq<Token>): (t: seq<Token>)
    ensures |t| == |a| + |b| + 3
    ensures t[0] == ClsToken && t[|a| + 1] == SepToken && t[|t| - 1] == SepToken
    ensures t[1..|a| + 1] == a && t[|a| + 2..|t| - 1] == b
  {
    [ClsToken] + a + [SepToken] + b + [SepToken]
  }

  /** `segment_ids`: 0 for `[CLS]`, A and the first `[SEP]`, 1 for B and the
      final `[SEP]`. */
  function SegmentIds(lenA: nat, lenB: nat): (s: seq<nat>)
    ensures |s| == lenA + lenB + 3
    ensures forall i :: 0 <= i < |s| ==> s[i] == (if i < lenA + 2 then 0 else 1)
  {
    seq(lenA + 2, _ => 0) + seq(lenB + 1, _ => 1)
  }

  /** The segment ids start with 0, end with 1 and never go back from 1 to
      0, and the first 1 comes right after the separator closing A. */
  lemma SegmentIdsShape(lenA: nat, lenB: nat)
    ensures var s := SegmentIds(lenA, lenB);
      s[0] == 0 && s[|s| - 1] == 1 && s[lenA + 1] == 0 && s[lenA + 2] == 1
    ensures var s := SegmentIds(lenA, lenB);
      forall i, j :: 0 <= i <= j < |s| ==> s[i] <= s[j]
  {
  }

  /** The masking budget of an instance of n tokens. */
  function Budget(cfg: Config, n: nat): int
  {
    Masking.NumToMask(cfg.maxPredictionsPerSeq, cfg.maskedCount(n))
  }

  /** The n-gram fields of an instance over `tokens`: parallel lists spelling
      out a selection from the complete scan of `tokens`, exactly as many as
      `scan[:max_ngram_in_seq]` keeps, no span listed twice, and a segment id
      that is 0 exactly when the n-gram starts in `[CLS] A [SEP]`. */
  ghost predicate NgramFields(tokens: seq<Token>, lenA: nat, cfg: Config, ids: seq<int>, positions: seq<nat>,
                              lengths: seq<nat>, tuples: seq<seq<Token>>, segmentIds: seq<nat>)
  {
    var n := |ids|;
    && |positions| == n && |lengths| == n && |tuples| == n && |segmentIds| == n
    && (exists scan {:trigger Ngrams.IsScan(scan, tokens, cfg.ngramDict)} ::
          && Ngrams.IsScan(scan, tokens, cfg.ngramDict)
          && n == Ngrams.PrefixLength(|scan|, cfg.maxNgramInSeq)
          && multiset(Ngrams.MatchList(ids, positions, lengths, tuples)) <= multiset(scan))
    && (forall k :: 0 <= k < n ==>
          Ngrams.ValidMatch(Ngrams.NgramMatch(ids[k], positions[k], lengths[k], tuples[k]), tokens, cfg.ngramDict))
    && (forall k :: 0 <= k < n ==> segmentIds[k] == (if positions[k] < lenA + 2 then 0 else 1))
    && (forall i, j :: 0 <= i < j < n ==> (positions[i], lengths[i]) != (positions[j], lengths[j]))
  }

  /** The instance made from segments a and b with the draws `cd`: it fits
      the sequence length, keeps the frame and the segment ids of
      `[CLS] a [SEP] b [SEP]`, is that sequence masked as the masking pass
      promises (within budget, whole groups or none, no untouched group that
      would still fit), and carries n-gram fields over its masked tokens. */
  ghost predicate WellFormedInstance(inst: Instance, cfg: Config, cd: ChunkDraws, a: seq<Token>, b: seq<Token>)
  {
    var original := Assemble(a, b);
    && |original| <= cfg.maxSeqLength
    && |inst.tokens| == |original|
    && inst.tokens[0] == ClsToken && inst.tokens[|a| + 1] == SepToken && inst.tokens[|original| - 1] == SepToken
    && inst.segmentIds == SegmentIds(|a|, |b|)
    && Masking.MaskedOutcome(original, inst.tokens, inst.maskedLmPositions, inst.maskedLmLabels,
                             Budget(cfg, |original|), cfg.wholeWordMask, cd.replacement)
    && NgramFields(inst.tokens, |a|, cfg, inst.ngramIds, inst.ngramPositions, inst.ngramLengths,
                   inst.ngramTuples, inst.ngramSegmentIds)
  }

  /** The tokens with each masked position given back its label. */
  function Unmasked(tokens: seq<Token>, positions: seq<nat>, labels: seq<Token>): (r: seq<Token>)
    requires |labels| == |positions|
    ensures |r| == |tokens|
    decreases |positions|
  {
    if positions == [] then tokens
    else
      var t := if positions[0] < |tokens| then tokens[positions[0] := labels[0]] else tokens;
      Unmasked(t, positions[1..], labels[1..])
  }

  /** With distinct positions inside the sequence, unmasking puts each label
      back at its position and leaves every other token alone. */
  lemma {:induction false} UnmaskedAt(tokens: seq<Token>, positions: seq<nat>, labels: seq<Token>)
    requires |labels| == |positions| && StrictlyAscending(positions)
    requires forall k :: 0 <= k < |positions| ==> positions[k] < |tokens|
    ensures forall k :: 0 <= k < |positions| ==> Unmasked(tokens, positions, labels)[positions[k]] == labels[k]
    ensures forall i :: 0 <= i < |tokens| && i !in positions ==> Unmasked(tokens, positions, labels)[i] == tokens[i]
    decreases |positions|
  {
    if positions != [] {
      var t := tokens[positions[0] := labels[0]];
      UnmaskedAt(t, positions[1..], labels[1..]);
      var r := Unmasked(tokens, positions, labels);
      assert r == Unmasked(t, positions[1..], labels[1..]);
      assert positions[0] !in positions[1..];
      forall k | 0 <= k < |positions| ensures r[positions[k]] == labels[k] {
        if k > 0 {
          assert positions[k] == positions[1..][k - 1] && labels[k] == labels[1..][k - 1];
        }
      }
    }
  }

  /** Unmasking gives back `original` exactly when the labels are the
      original tokens at the masked positions and every other token is the
      original one. */
  lemma UnmaskedMeans(tokens: seq<Token>, positions: seq<nat>, labels: seq<Token>, original: seq<Token>)
    requires |labels| == |positions| && StrictlyAscending(positions)
    requires forall k :: 0 <= k < |positions| ==> positions[k] < |tokens|
    ensures Unmasked(tokens, positions, labels) == original <==>
              && |tokens| == |original|
              && (forall k :: 0 <= k < |positions| ==> labels[k] == original[positions[k]])
              && (forall i :: 0 <= i < |tokens| && i !in positions ==> tokens[i] == original[i])
  {
    var u := Unmasked(tokens, positions, labels);
    UnmaskedAt(tokens, positions, labels);
    if && |tokens| == |original|
       && (forall k :: 0 <= k < |positions| ==> labels[k] == original[positions[k]])
       && (forall i :: 0 <= i < |tokens| && i !in positions ==> tokens[i] == original[i]) {
      forall i | 0 <= i < |u| ensures u[i] == original[i] {
        if i in positions {
          var k :| 0 <= k < |positions| && positions[k] == i;
        }
      }
    }
  }

  /** A well-formed instance renders its segments: giving the masked
      positions back their labels yields `[CLS] a [SEP] b [SEP]`. */
  lemma WellFormedRenders(inst: Instance, cfg: Config, cd: ChunkDraws, a: seq<Token>, b: seq<Token>)
    requires WellFormedInstance(inst, cfg, cd, a, b)
    ensures Unmasked(inst.tokens, inst.maskedLmPositions, inst.maskedLmLabels) == Assemble(a, b)
  {
    UnmaskedMeans(inst.tokens, inst.maskedLmPositions, inst.maskedLmLabels, Assemble(a, b));
  }

  /** The n-gram segment id of a well-formed instance is the segment id of
      the token the n-gram starts at. */
  lemma NgramSegmentAgrees(inst: Instance, cfg: Config, cd: ChunkDraws, a: seq<Token>, b: seq<Token>)
    requires WellFormedInstance(inst, cfg, cd, a, b)
    ensures forall k :: 0 <= k < |inst.ngramSegmentIds| ==>
              inst.ngramPositions[k] < |inst.segmentIds| &&
              inst.ngramSegmentIds[k] == inst.segmentIds[inst.ngramPositions[k]]
  {
    forall k | 0 <= k < |inst.ngramSegmentIds|
      ensures inst.ngramPositions[k] < |inst.segmentIds|
    {
      assert Ngrams.ValidMatch(Ngrams.NgramMatch(inst.ngramIds[k], inst.ngramPositions[k], inst.ngramLengths[k],
                                                 inst.ngramTuples[k]), inst.tokens, cfg.ngramDict);
    }
  }

  // ---------------------------------------------------------------------
  // Building one instance

  /** The n-gram scan over the masked tokens, the bounded random selection
      and the five derived lists; `scan` is the complete scan the selection
      was drawn from. */
  method AnnotateNgrams(tokens: seq<Token>, lenA: nat, cfg: Config, cd: ChunkDraws)
    returns (ids: seq<int>, positions: seq<nat>, lengths: seq<nat>, tuples: seq<seq<Token>>, segmentIds: seq<nat>,
             ghost scan: seq<Ngrams.NgramMatch>)
    ensures Ngrams.IsScan(scan, tokens, cfg.ngramDict)
    ensures |ids| == Ngrams.PrefixLength(|scan|, cfg.maxNgramInSeq)
    ensures NgramFields(tokens, lenA, cfg, ids, positions, lengths, tuples, segmentIds)
  {
    var matches := Ngrams.ScanNgrams(tokens, cfg.ngramDict);
    scan := matches;
    var selected := Ngrams.SelectNgrams(matches, cfg.maxNgramInSeq, cd.ngramShuffle);
    Ngrams.SelectionKeepsScan(matches, selected, tokens, cfg.ngramDict);
    ids := Ngrams.NgramIds(selected);
    positions := Ngrams.NgramPositions(selected);
    lengths := Ngrams.NgramLengths(selected);
    tuples := Ngrams.NgramTuples(selected);
    segmentIds := Ngrams.NgramSegmentIds(positions, lenA);
    forall k | 0 <= k < |selected|
      ensures Ngrams.NgramMatch(ids[k], positions[k], lengths[k], tuples[k]) == selected[k]
    {
    }
    assert Ngrams.MatchList(ids, positions, lengths, tuples) == selected;
    assert Ngrams.IsScan(scan, tokens, cfg.ngramDict);
  }

  /** Assembles `[CLS] A [SEP] B [SEP]` and runs the masking pass over it.
      The marker positions are never masked, so the frame survives. */
  method MaskAssembled(tokensA: seq<Token>, tokensB: seq<Token>, cfg: Config, cd: ChunkDraws)
    returns (r: Result<(seq<Token>, seq<nat>, seq<Token>)>)
    ensures r.Err? <==> cfg.maxPredictionsPerSeq < 0
    ensures r.Err? ==> r.error == AssertionError
    ensures r.Ok? ==>
              var original := Assemble(tokensA, tokensB);
              && Masking.MaskedOutcome(original, r.value.0, r.value.1, r.value.2,
                                       Budget(cfg, |original|), cfg.wholeWordMask, cd.replacement)
              && r.value.0[0] == ClsToken && r.value.0[|tokensA| + 1] == SepToken
              && r.value.0[|original| - 1] == SepToken
  {
    var tokens := Assemble(tokensA, tokensB);
    var buffer := new Token[|tokens|](i requires 0 <= i < |tokens| => tokens[i]);
    assert buffer[..] == tokens;
    var masking := Masking.CreateMaskedLmPredictions(
      buffer, cfg.maskedCount(|tokens|), cfg.maxPredictionsPerSeq, cfg.wholeWordMask, cd.maskShuffle, cd.replacement);
    if masking.Err? {
      return Err(masking.error);
    }
    var positions := masking.value.0;
    forall k | 0 <= k < |positions|
      ensures positions[k] != 0 && positions[k] != |tokensA| + 1 && positions[k] != |tokens| - 1
    {
      assert !Masking.IsSpecial(tokens[positions[k]]);
    }
    r := Ok((buffer[..], positions, masking.value.1));
  }

  /** Everything after truncation: assemble and mask, then annotate the
      masked tokens with n-grams. */
  method BuildInstance(tokensA: seq<Token>, tokensB: seq<Token>, isRandomNext: bool, cfg: Config, cd: ChunkDraws)
    returns (r: Result<Instance>)
    requires |tokensA| + |tokensB| + 3 <= cfg.maxSeqLength
    ensures r.Err? <==> cfg.maxPredictionsPerSeq < 0
    ensures r.Err? ==> r.error == AssertionError
    ensures r.Ok? ==> WellFormedInstance(r.value, cfg, cd, tokensA, tokensB)
    ensures r.Ok? ==> r.value.isRandomNext == isRandomNext
  {
    var masking := MaskAssembled(tokensA, tokensB, cfg, cd);
    if masking.Err? {
      return Err(masking.error);
    }
    var (masked, positions, labels) := masking.value;
    var ngramIds, ngramPositions, ngramLengths, ngramTuples, ngramSegmentIds, _ :=
      AnnotateNgrams(masked, |tokensA|, cfg, cd);
    r := Ok(Instance(masked, SegmentIds(|tokensA|, |tokensB|), isRandomNext, positions, labels,
                     ngramIds, ngramPositions, ngramLengths, ngramTuples, ngramSegmentIds));
  }

  /** The instance is the one built from the truncation of `tokensA` and
      `tokensB` to `max_seq_length - 3` tokens under the draws `cd`. */
  ghost predicate BuiltFrom(inst: Instance, tokensA: seq<Token>, tokensB: seq<Token>, cfg: Config, cd: ChunkDraws)
  {
    var t := Truncation.Truncated(tokensA, tokensB, cfg.maxSeqLength - 3, cd.truncationCoin, 0);
    t.Ok? && WellFormedInstance(inst, cfg, cd, t.value.0, t.value.1)
  }

  /** Truncates the pair to the budget and builds the instance from what is
      left: a slice of each segment, of the lengths the balanced removal
      leaves. */
  method PairInstance(tokensA: seq<Token>, tokensB: seq<Token>, isRandomNext: bool, cfg: Config, cd: ChunkDraws)
    returns (r: Result<Instance>)
    ensures r.Err? <==> cfg.maxSeqLength < 3 || cfg.maxPredictionsPerSeq < 0
    ensures r.Err? ==> r.error == AssertionError
    ensures r.Ok? ==> BuiltFrom(r.value, tokensA, tokensB, cfg, cd) && r.value.isRandomNext == isRandomNext
    ensures r.Ok? ==>
              var t := Truncation.Truncated(tokensA, tokensB, cfg.maxSeqLength - 3, cd.truncationCoin, 0).value;
              && (|t.0|, |t.1|) == Truncation.RemovalLengths(|tokensA|, |tokensB|, cfg.maxSeqLength - 3)
              && IsSlice(t.0, tokensA) && IsSlice(t.1, tokensB)
  {
    var truncated := Truncation.TruncateSeqPair(tokensA, tokensB, cfg.maxSeqLength - 3, cd.truncationCoin);
    Truncation.TruncatedMeetsBudget(tokensA, tokensB, cfg.maxSeqLength - 3, cd.truncationCoin, 0);
    if truncated.Err? {
      return Err(truncated.error);
    }
    var a, b := truncated.value.0, truncated.value.1;
    r := BuildInstance(a, b, isRandomNext, cfg, cd);
  }

  // ---------------------------------------------------------------------
  // Chunks and segments

  /** `a_end`: 1 for a one-sentence chunk, otherwise `randrange(1, len(chunk))`. */
  function SplitPoint(chunkLength: nat, draw: nat): (aEnd: nat)
    ensures chunkLength >= 2 ==> 1 <= aEnd < chunkLength
    ensures chunkLength < 2 ==> aEnd == 1
  {
    if chunkLength >= 2 then Random.RandRange(1, chunkLength, draw) else 1
  }

  /** Every split of a chunk of two or more sentences is possible. */
  lemma SplitPointReaches(chunkLength: nat, aEnd: nat)
    requires 1 <= aEnd < chunkLength
    ensures SplitPoint(chunkLength, aEnd - 1) == aEnd
  {
    Random.RandRangeReaches(1, chunkLength, aEnd);
  }

  /** The tokens of `sentences[lo..hi]`, by repeated `extend`. */
  method JoinSentences(sentences: seq<Sentence>, lo: nat, hi: nat) returns (tokens: seq<Token>)
    requires lo <= hi <= |sentences|
    ensures tokens == Concat(sentences[lo..hi])
    ensures |tokens| == TokenCount(sentences[lo..hi])
  {
    tokens := [];
    var j := lo;
    while j < hi
      invariant lo <= j <= hi
      invariant tokens == Concat(sentences[lo..j])
    {
      ConcatSnoc(sentences[lo..j], sentences[j]);
      assert sentences[lo..j + 1] == sentences[lo..j] + [sentences[j]];
      tokens := tokens + sentences[j];
      j := j + 1;
    }
    ConcatLength(sentences[lo..hi]);
  }

  /** The tokens of the sentences of `document` from `start` up to `stop`. */
  function Segment(document: Document, start: nat, stop: nat): seq<Token>
    requires start <= stop <= |document|
  {
    Concat(document[start..stop])
  }

  /** The stopping rule of the random next segment: the run of sentences
      `start..stop` is the shortest one from `start` that reaches
      `targetBLength` tokens, or runs to the end of the document. */
  ghost predicate StopsAt(document: Document, start: nat, stop: nat, targetBLength: int)
    requires start <= stop <= |document|
  {
    && (stop < |document| ==> |Segment(document, start, stop)| >= targetBLength)
    && (forall u :: start < u < stop ==> |Segment(document, start, u)| < targetBLength)
  }

  /** The random next segment: sentences of the sampled document from
      `start` on, stopping after the first one that brings B to
      `targetBLength` tokens, or at the end of the document. */
  method RandomNextSegment(document: Document, start: nat, targetBLength: int)
    returns (tokensB: seq<Token>, ghost stop: nat)
    requires start < |document|
    ensures start < stop <= |document|
    ensures tokensB == Segment(document, start, stop)
    ensures stop < |document| ==> |tokensB| >= targetBLength
    ensures forall u :: start < u < stop ==> |Segment(document, start, u)| < targetBLength
  {
    tokensB := [];
    var j := start;
    while j < |document|
      invariant start <= j <= |document|
      invariant tokensB == Segment(document, start, j)
      invariant forall u :: start < u <= j ==> |Segment(document, start, u)| < targetBLength
    {
      ConcatSnoc(document[start..j], document[j]);
      assert document[start..j + 1] == document[start..j] + [document[j]];
      tokensB := tokensB + document[j];
      j := j + 1;
      if |tokensB| >= targetBLength {
        break;
      }
    }
    stop := j;
  }

  /** B is the random next segment the draws `cd` pick for document `docIdx`:
      the document drawn by sentence weight among the others, from the drawn
      start sentence up to where the stopping rule ends it. */
  ghost predicate RandomNextOf(tokensB: seq<Token>, docs: seq<Document>, lengths: seq<nat>, docIdx: nat,
                               targetBLength: int, cd: ChunkDraws)
  {
    && |docs| == |lengths| && DocumentStore.AllPositive(lengths) && 2 <= |lengths| && docIdx < |lengths|
    && var j := DocumentStore.WeightedIndex(lengths, docIdx, cd.sampleDraw);
       && 0 < |docs[j]|
       && var start := Random.RandRange(0, |docs[j]|, cd.startDraw);
          exists stop :: && start < stop <= |docs[j]|
                         && tokensB == Segment(docs[j], start, stop)
                         && StopsAt(docs[j], start, stop, targetBLength)
  }

  /** The random next segment: a document other than `docIdx`, drawn by
      sentence weight, a random start sentence in it, and the sentences from
      there on until B reaches `targetBLength` tokens. The segment is
      sentences `srcStart..srcStop` of document `srcDoc`. */
  method SampleNextSegment(db: DocumentStore.DocumentDatabase, docIdx: nat, targetBLength: int, cd: ChunkDraws)
    returns (r: Result<seq<Token>>, ghost srcDoc: nat, ghost srcStart: nat, ghost srcStop: nat)
    requires db.Valid() && docIdx < |db.documents|
    modifies db`docCumsum, db`cumsumMax
    ensures db.Valid()
    ensures db.documents == old(db.documents) && db.docLengths == old(db.docLengths)
    ensures r.Err? <==> |db.documents| < 2
    ensures r.Err? ==> r.error == ValueError
    ensures r.Ok? ==> && srcDoc == DocumentStore.WeightedIndex(db.docLengths, docIdx, cd.sampleDraw)
                      && srcDoc != docIdx && srcStart < srcStop <= |db.documents[srcDoc]|
                      && srcStart == Random.RandRange(0, |db.documents[srcDoc]|, cd.startDraw)
                      && r.value == Segment(db.documents[srcDoc], srcStart, srcStop)
                      && StopsAt(db.documents[srcDoc], srcStart, srcStop, targetBLength)
    ensures r.Ok? ==> RandomNextOf(r.value, db.documents, db.docLengths, docIdx, targetBLength, cd)
  {
    var sampled, sampledIdx := db.SampleDoc(docIdx, true, cd.sampleDraw);
    if sampled.Err? {
      return Err(sampled.error), 0, 0, 0;
    }
    var randomDocument := sampled.value;
    assert |randomDocument| == db.docLengths[sampledIdx] > 0;
    var randomStart := Random.RandRange(0, |randomDocument|, cd.startDraw);
    var tokensB;
    ghost var stop;
    tokensB, stop := RandomNextSegment(randomDocument, randomStart, targetBLength);
    return Ok(tokensB), sampledIdx, randomStart, stop;
  }

  /** The instance made from a chunk with the draws `cd`: A is the first
      `a_end` sentences; the pair is a random next one when the chunk has one
      sentence or the coin says so; B is then the random next segment drawn
      for the remaining token budget, otherwise the rest of the chunk; and the
      instance is built from the truncated pair. */
  ghost predicate ChunkInstance(inst: Instance, chunk: seq<Sentence>, docs: seq<Document>, lengths: seq<nat>,
                                docIdx: nat, targetSeqLength: int, cfg: Config, cd: ChunkDraws)
    requires 1 <= |chunk|
  {
    // Stated one unfolding away, so that where a ChunkInstance fact is only
    // assumed the verifier leaves its definition folded.
    MadeFrom(inst, chunk, docs, lengths, docIdx, targetSeqLength, cfg, cd, 1)
  }

  /** The definition of ChunkInstance, reached after `depth` unfoldings. */
  ghost predicate MadeFrom(inst: Instance, chunk: seq<Sentence>, docs: seq<Document>, lengths: seq<nat>,
                           docIdx: nat, targetSeqLength: int, cfg: Config, cd: ChunkDraws, depth: nat)
    requires 1 <= |chunk|
    decreases depth
  {
    if depth > 0 then MadeFrom(inst, chunk, docs, lengths, docIdx, targetSeqLength, cfg, cd, depth - 1)
    else
    var aEnd := SplitPoint(|chunk|, cd.splitDraw);
    var tokensA := Concat(chunk[..aEnd]);
    && inst.isRandomNext == (|chunk| == 1 || cd.randomNextCoin)
    && exists tokensB ::
         && (inst.isRandomNext ==> RandomNextOf(tokensB, docs, lengths, docIdx, targetSeqLength - |tokensA|, cd))
         && (!inst.isRandomNext ==> tokensB == Concat(chunk[aEnd..]))
         && BuiltFrom(inst, tokensA, tokensB, cfg, cd)
  }

  /** Introduces ChunkInstance from its witness. */
  lemma ChunkInstanceIntro(inst: Instance, chunk: seq<Sentence>, docs: seq<Document>, lengths: seq<nat>,
                           docIdx: nat, targetSeqLength: int, cfg: Config, cd: ChunkDraws, tokensB: seq<Token>)
    requires 1 <= |chunk|
    requires inst.isRandomNext == (|chunk| == 1 || cd.randomNextCoin)
    requires var tokensA := Concat(chunk[..SplitPoint(|chunk|, cd.splitDraw)]);
             inst.isRandomNext ==> RandomNextOf(tokensB, docs, lengths, docIdx, targetSeqLength - |tokensA|, cd)
    requires !inst.isRandomNext ==> tokensB == Concat(chunk[SplitPoint(|chunk|, cd.splitDraw)..])
    requires BuiltFrom(inst, Concat(chunk[..SplitPoint(|chunk|, cd.splitDraw)]), tokensB, cfg, cd)
    ensures ChunkInstance(inst, chunk, docs, lengths, docIdx, targetSeqLength, cfg, cd)
  {
    assert MadeFrom(inst, chunk, docs, lengths, docIdx, targetSeqLength, cfg, cd, 0);
  }

  /** How many sentences of a chunk its instance consumes: only the A
      sentences for a random next segment (the rest are put back), the whole
      chunk otherwise. */
  function Used(chunkLength: nat, isRandomNext: bool, splitDraw: nat): (used: nat)
    requires 1 <= chunkLength
    ensures 1 <= used <= chunkLength
    ensures isRandomNext && chunkLength >= 2 ==> used < chunkLength
  {
    if isRandomNext then SplitPoint(chunkLength, splitDraw) else chunkLength
  }

  /** Turns one closed chunk into an instance. Returns the instance and how
      many sentences of the chunk it used. */
  method CompleteChunk(db: DocumentStore.DocumentDatabase, docIdx: nat, chunk: seq<Sentence>,
                       targetSeqLength: int, cfg: Config, cd: ChunkDraws,
                       ghost docs: seq<Document>, ghost lengths: seq<nat>)
    returns (r: Result<Instance>, used: nat)
    requires db.Valid() && db.documents == docs && db.docLengths == lengths && docIdx < |docs|
    requires |chunk| >= 1
    modifies db`docCumsum, db`cumsumMax
    ensures db.Valid() && db.documents == docs && db.docLengths == lengths
    ensures r.Err? ==> || (r.error == ValueError && |docs| < 2 && (|chunk| == 1 || cd.randomNextCoin))
                       || (r.error == AssertionError && (cfg.maxSeqLength < 3 || cfg.maxPredictionsPerSeq < 0))
    ensures ((|docs| >= 2 || (|chunk| >= 2 && !cd.randomNextCoin))
             && cfg.maxSeqLength >= 3 && cfg.maxPredictionsPerSeq >= 0) ==> r.Ok?
    ensures r.Ok? ==> ChunkInstance(r.value, chunk, docs, lengths, docIdx, targetSeqLength, cfg, cd)
    ensures r.Ok? ==> used == Used(|chunk|, r.value.isRandomNext, cd.splitDraw)
  {
    var aEnd := SplitPoint(|chunk|, cd.splitDraw);
    var tokensA := JoinSentences(chunk, 0, aEnd);
    assert chunk[0..aEnd] == chunk[..aEnd];
    var tokensB: seq<Token>;
    var isRandomNext: bool;
    if |chunk| == 1 || cd.randomNextCoin {
      isRandomNext := true;
      var sampled;
      ghost var srcDoc, srcStart, srcStop;
      sampled, srcDoc, srcStart, srcStop := SampleNextSegment(db, docIdx, targetSeqLength - |tokensA|, cd);
      if sampled.Err? {
        return Err(sampled.error), 0;
      }
      tokensB := sampled.value;
      used := aEnd;
    } else {
      isRandomNext := false;
      tokensB := JoinSentences(chunk, aEnd, |chunk|);
      assert chunk[aEnd..|chunk|] == chunk[aEnd..];
      used := |chunk|;
    }
    var built := PairInstance(tokensA, tokensB, isRandomNext, cfg, cd);
    if built.Err? {
      return Err(built.error), 0;
    }
    ChunkInstanceIntro(built.value, chunk, docs, lengths, docIdx, targetSeqLength, cfg, cd, tokensB);
    r := Ok(built.value);
  }

  // ---------------------------------------------------------------------
  // The document walk

  /** How the walk moved through the document: the first chunk starts at
      sentence 0, each next one right after the sentences the previous
      instance used, and the walk resumes at `next` after the last one. */
  ghost predicate Tiled(insts: seq<Instance>, starts: seq<nat>, ends: seq<nat>, draws: Draws, next: nat)
    decreases |insts|
  {
    && |starts| == |insts| && |ends| == |insts|
    && if |insts| == 0 then next == 0
       else
         var n := |insts| - 1;
         && Tiled(insts[..n], starts[..n], ends[..n], draws, starts[n])
         && starts[n] < ends[n]
         && next == starts[n] + Used(ends[n] - starts[n], insts[n].isRandomNext, draws.At(n).splitDraw)
  }

  /** The k-th instance was made, with the k-th draws, from the chunk of
      sentences `starts[k]..ends[k]` of the document. */
  ghost predicate ChunksMade(insts: seq<Instance>, starts: seq<nat>, ends: seq<nat>, document: Document,
                             docs: seq<Document>, lengths: seq<nat>, docIdx: nat, targetSeqLength: int,
                             cfg: Config, draws: Draws)
  {
    && |starts| == |insts| && |ends| == |insts|
    && (forall k :: 0 <= k < |insts| ==> starts[k] < ends[k] <= |document|)
    && forall k {:trigger document[starts[k]..ends[k]]} :: 0 <= k < |insts| ==>
         ChunkInstance(insts[k], document[starts[k]..ends[k]], docs, lengths, docIdx, targetSeqLength,
                       cfg, draws.At(k))
  }

  /** Where the chunk is closed that holds the sentences before `hi`,
      `count` tokens in all: at sentence `hi` when it is the end of the
      document or the count has reached `targetSeqLength`, otherwise after
      taking in more sentences. */
  function ChunkEndFrom(document: Document, hi: nat, count: int, targetSeqLength: int): (e: nat)
    requires hi <= |document|
    ensures hi <= e <= |document|
    decreases |document| - hi
  {
    if hi == |document| || count >= targetSeqLength then hi
    else ChunkEndFrom(document, hi + 1, count + |document[hi]|, targetSeqLength)
  }

  /** The end of the chunk that starts at sentence `lo`. */
  function ChunkEnd(document: Document, lo: nat, targetSeqLength: int): nat
    requires lo < |document|
  {
    ChunkEndFrom(document, lo + 1, |document[lo]|, targetSeqLength)
  }

  /** A chunk ends where the stopping rule of the random next segment would
      stop: the sentences `lo..ChunkEnd` are the shortest run from `lo` that
      reaches the target, or the rest of the document. */
  lemma {:induction false} ChunkEndFromStops(document: Document, lo: nat, hi: nat, count: int, targetSeqLength: int)
    requires lo < hi <= |document| && count == |Segment(document, lo, hi)|
    requires forall u :: lo < u < hi ==> |Segment(document, lo, u)| < targetSeqLength
    ensures StopsAt(document, lo, ChunkEndFrom(document, hi, count, targetSeqLength), targetSeqLength)
    decreases |document| - hi
  {
    if !(hi == |document| || count >= targetSeqLength) {
      ConcatSnoc(document[lo..hi], document[hi]);
      assert document[lo..hi + 1] == document[lo..hi] + [document[hi]];
      ChunkEndFromStops(document, lo, hi + 1, count + |document[hi]|, targetSeqLength);
    }
  }

  /** The chunk that starts at sentence `lo` holds at least that sentence,
      and ends by the stopping rule. */
  lemma ChunkEndStops(document: Document, lo: nat, targetSeqLength: int)
    requires lo < |document|
    ensures lo < ChunkEnd(document, lo, targetSeqLength) <= |document|
    ensures StopsAt(document, lo, ChunkEnd(document, lo, targetSeqLength), targetSeqLength)
  {
    ConcatSnoc([], document[lo]);
    assert document[lo..lo + 1] == [] + [document[lo]];
    ChunkEndFromStops(document, lo, lo + 1, |document[lo]|, targetSeqLength);
  }

  /** The walk's state inside a chunk that began at sentence `lo` and has
      taken sentences `lo..i`, totalling `currentLength` tokens: the chunk
      is still open, and it will close where `ChunkEnd` says. */
  ghost predicate OpenChunk(document: Document, lo: nat, i: nat, currentLength: int, targetSeqLength: int)
  {
    && lo <= i <= |document|
    && (lo == i ==> currentLength == 0)
    && (lo < i ==> && i < |document| && currentLength < targetSeqLength
                   && ChunkEnd(document, lo, targetSeqLength)
                      == ChunkEndFrom(document, i, currentLength, targetSeqLength))
  }

  /** Taking sentence `i` into the open chunk: it closes the chunk exactly
      when it is the last sentence or the count reaches the target, and then
      the chunk ends right after it, as `ChunkEnd` says; otherwise the chunk
      stays open with the grown count. */
  lemma ChunkGrows(document: Document, lo: nat, i: nat, currentLength: int, targetSeqLength: int)
    requires i < |document| && OpenChunk(document, lo, i, currentLength, targetSeqLength)
    ensures document[lo..i + 1] == document[lo..i] + [document[i]]
    ensures i == |document| - 1 || currentLength + |document[i]| >= targetSeqLength ==>
              ChunkEnd(document, lo, targetSeqLength) == i + 1
    ensures !(i == |document| - 1 || currentLength + |document[i]| >= targetSeqLength) ==>
              OpenChunk(document, lo, i + 1, currentLength + |document[i]|, targetSeqLength)
  {
    assert document[lo..i + 1] == document[lo..i] + [document[i]];
    if lo == i {
      assert ChunkEnd(document, lo, targetSeqLength)
             == ChunkEndFrom(document, i + 1, |document[i]|, targetSeqLength);
    } else {
      assert ChunkEndFrom(document, i, currentLength, targetSeqLength)
             == ChunkEndFrom(document, i + 1, currentLength + |document[i]|, targetSeqLength);
    }
  }

  /** Every chunk of the walk, sentences `starts[k]..ends[k]`, ends where
      `ChunkEnd` says. */
  ghost predicate ChunksClosed(starts: seq<nat>, ends: seq<nat>, document: Document, targetSeqLength: int)
    decreases |starts|
  {
    && |starts| == |ends|
    && (|starts| > 0 ==>
          var n := |starts| - 1;
          && ChunksClosed(starts[..n], ends[..n], document, targetSeqLength)
          && starts[n] < |document| && ends[n] == ChunkEnd(document, starts[n], targetSeqLength))
  }

  /** Appending a chunk that ends where `ChunkEnd` says keeps every chunk
      closed by the rule. */
  lemma ChunksClosedSnoc(starts: seq<nat>, ends: seq<nat>, document: Document, targetSeqLength: int, lo: nat, hi: nat)
    requires ChunksClosed(starts, ends, document, targetSeqLength)
    requires lo < |document| && hi == ChunkEnd(document, lo, targetSeqLength)
    ensures ChunksClosed(starts + [lo], ends + [hi], document, targetSeqLength)
  {
    assert (starts + [lo])[..|starts|] == starts;
    assert (ends + [hi])[..|ends|] == ends;
  }

  /** The chunk `k` of a walk ends where `ChunkEnd` says, so it stops by the
      stopping rule. */
  lemma {:induction false} ChunksClosedAt(starts: seq<nat>, ends: seq<nat>, document: Document, targetSeqLength: int,
                                          k: nat)
    requires ChunksClosed(starts, ends, document, targetSeqLength) && k < |starts|
    ensures starts[k] < ends[k] <= |document|
    ensures ends[k] == ChunkEnd(document, starts[k], targetSeqLength)
    ensures StopsAt(document, starts[k], ends[k], targetSeqLength)
    decreases |starts|
  {
    var n := |starts| - 1;
    if k < n {
      ChunksClosedAt(starts[..n], ends[..n], document, targetSeqLength, k);
    } else {
      ChunkEndStops(document, starts[k], targetSeqLength);
    }
  }

  /** Closing a chunk of `len` sentences at `next`, of which the instance
      used `used`, extends the tiling to `insts'`, `starts'` and `ends'`. */
  lemma TiledSnoc(insts: seq<Instance>, starts: seq<nat>, ends: seq<nat>, draws: Draws, next: nat,
                  inst: Instance, len: nat, used: nat, insts': seq<Instance>, starts': seq<nat>, ends': seq<nat>)
    requires Tiled(insts, starts, ends, draws, next)
    requires 0 < len && used == Used(len, inst.isRandomNext, draws.At(|insts|).splitDraw)
    requires insts' == insts + [inst] && starts' == starts + [next] && ends' == ends + [next + len]
    ensures Tiled(insts', starts', ends', draws, next + used)
  {
    assert insts'[..|insts|] == insts;
    assert starts'[..|insts|] == starts;
    assert ends'[..|insts|] == ends;
  }

  /** Appending the instance made from the chunk `lo..hi` keeps every
      instance the one made from its chunk. */
  lemma ChunksMadeSnoc(insts: seq<Instance>, starts: seq<nat>, ends: seq<nat>, document: Document,
                       docs: seq<Document>, lengths: seq<nat>, docIdx: nat, targetSeqLength: int,
                       cfg: Config, draws: Draws, inst: Instance, chunk: seq<Sentence>, lo: nat, hi: nat,
                       insts': seq<Instance>, starts': seq<nat>, ends': seq<nat>)
    requires ChunksMade(insts, starts, ends, document, docs, lengths, docIdx, targetSeqLength, cfg, draws)
    requires lo < hi <= |document| && chunk == document[lo..hi]
    requires ChunkInstance(inst, chunk, docs, lengths, docIdx, targetSeqLength, cfg, draws.At(|insts|))
    requires insts' == insts + [inst] && starts' == starts + [lo] && ends' == ends + [hi]
    ensures ChunksMade(insts', starts', ends', document, docs, lengths, docIdx, targetSeqLength, cfg, draws)
  {
    forall k | 0 <= k < |insts'|
      ensures starts'[k] < ends'[k] <= |document|
    {
      if k < |insts| {
        assert starts'[k] == starts[k] && ends'[k] == ends[k];
      }
    }
    forall k | 0 <= k < |insts'|
      ensures ChunkInstance(insts'[k], document[starts'[k]..ends'[k]], docs, lengths, docIdx, targetSeqLength,
                            cfg, draws.At(k))
    {
      if k < |insts| {
        assert starts'[k] == starts[k] && ends'[k] == ends[k];
        assert ChunkInstance(insts[k], document[starts[k]..ends[k]], docs, lengths, docIdx, targetSeqLength,
                             cfg, draws.At(k));
        assert insts'[k] == insts[k];
      } else {
        assert insts'[k] == inst && starts'[k] == lo && ends'[k] == hi;
      }
    }
  }

  /** Every instance consumes at least one sentence: the chunks of a walk
      start at strictly increasing sentences, all before where the walk
      resumes, so there are at most as many instances as sentences walked. */
  lemma {:induction false} TiledAdvances(insts: seq<Instance>, starts: seq<nat>, ends: seq<nat>, draws: Draws,
                                         next: nat)
    requires Tiled(insts, starts, ends, draws, next)
    ensures StrictlyAscending(starts)
    ensures forall k :: 0 <= k < |starts| ==> starts[k] < next
    ensures |insts| <= next
    decreases |insts|
  {
    if |insts| > 0 {
      var n := |insts| - 1;
      var prefix := starts[..n];
      TiledAdvances(insts[..n], prefix, ends[..n], draws, starts[n]);
      assert starts[n] < next;
      forall k | 0 <= k < n ensures starts[k] < starts[n] {
        assert prefix[k] == starts[k];
      }
      forall i, j | 0 <= i < j < |starts| ensures starts[i] < starts[j] {
        assert prefix[i] == starts[i];
        if j < n {
          assert prefix[j] == starts[j];
        }
      }
    }
  }

  /** The state of the walk with the sentences before `next` consumed: the
      instances made so far tile the document up to `next`, each was made
      from its chunk, and each chunk was closed where `ChunkEnd` says. */
  ghost predicate Walked(insts: seq<Instance>, starts: seq<nat>, ends: seq<nat>, document: Document,
                         docs: seq<Document>, lengths: seq<nat>, docIdx: nat, targetSeqLength: int,
                         cfg: Config, draws: Draws, next: nat)
  {
    && Tiled(insts, starts, ends, draws, next)
    && ChunksMade(insts, starts, ends, document, docs, lengths, docIdx, targetSeqLength, cfg, draws)
    && ChunksClosed(starts, ends, document, targetSeqLength)
  }

  /** The walk recorded so far has reached sentence `lo`, and the chunk it
      opens there takes a random next segment: the chunk holds one sentence,
      or the coin of the draws for its instance says so. Only such a chunk
      samples another document. */
  ghost predicate ReachesRandomNext(insts: seq<Instance>, starts: seq<nat>, ends: seq<nat>, document: Document,
                                    docs: seq<Document>, lengths: seq<nat>, docIdx: nat, targetSeqLength: int,
                                    cfg: Config, draws: Draws, lo: nat)
  {
    && Walked(insts, starts, ends, document, docs, lengths, docIdx, targetSeqLength, cfg, draws, lo)
    && lo < |document|
    && (ChunkEnd(document, lo, targetSeqLength) == lo + 1 || draws.At(|insts|).randomNextCoin)
  }

  /** Closing the chunk `lo..hi` with the instance made from it extends the
      record of the walk, which resumes after the sentences the instance
      used. */
  lemma WalkedSnoc(insts: seq<Instance>, starts: seq<nat>, ends: seq<nat>, document: Document,
                   docs: seq<Document>, lengths: seq<nat>, docIdx: nat, targetSeqLength: int,
                   cfg: Config, draws: Draws, lo: nat, hi: nat, chunk: seq<Sentence>, grown: seq<Instance>, used: nat)
    requires Walked(insts, starts, ends, document, docs, lengths, docIdx, targetSeqLength, cfg, draws, lo)
    requires lo < hi <= |document| && chunk == document[lo..hi] && hi == ChunkEnd(document, lo, targetSeqLength)
    requires |grown| == |insts| + 1 && grown[..|insts|] == insts
    requires ChunkInstance(grown[|insts|], chunk, docs, lengths, docIdx, targetSeqLength, cfg, draws.At(|insts|))
    requires used == Used(|chunk|, grown[|insts|].isRandomNext, draws.At(|insts|).splitDraw)
    ensures Walked(grown, starts + [lo], ends + [hi], document, docs, lengths, docIdx, targetSeqLength,
                   cfg, draws, lo + used)
  {
    var inst := grown[|insts|];
    assert grown == insts + [inst];
    ChunksClosedSnoc(starts, ends, document, targetSeqLength, lo, hi);
    TiledSnoc(insts, starts, ends, draws, lo, inst, |chunk|, used, grown, starts + [lo], ends + [hi]);
    ChunksMadeSnoc(insts, starts, ends, document, docs, lengths, docIdx, targetSeqLength, cfg, draws,
                   inst, chunk, lo, hi, grown, starts + [lo], ends + [hi]);
  }

  /** Closing a chunk of the walk: the instance made from it, drawn with the
      draws for the next instance, is appended to those made so far, and the
      walk resumes after the sentences it used. */
  method CloseChunk(db: DocumentStore.DocumentDatabase, docIdx: nat, chunk: seq<Sentence>,
                    targetSeqLength: int, cfg: Config, draws: Draws, instances: seq<Instance>,
                    ghost docs: seq<Document>, ghost lengths: seq<nat>)
    returns (r: Result<seq<Instance>>, used: nat)
    requires db.Valid() && db.documents == docs && db.docLengths == lengths && docIdx < |docs|
    requires |chunk| >= 1
    modifies db`docCumsum, db`cumsumMax
    ensures db.Valid() && db.documents == docs && db.docLengths == lengths
    ensures r.Err? ==> || (r.error == ValueError && |docs| < 2
                           && (|chunk| == 1 || draws.At(|instances|).randomNextCoin))
                       || (r.error == AssertionError && (cfg.maxSeqLength < 3 || cfg.maxPredictionsPerSeq < 0))
    ensures ((|docs| >= 2 || (|chunk| >= 2 && !draws.At(|instances|).randomNextCoin))
             && cfg.maxSeqLength >= 3 && cfg.maxPredictionsPerSeq >= 0) ==> r.Ok?
    ensures r.Ok? ==> |r.value| == |instances| + 1 && r.value[..|instances|] == instances
    ensures r.Ok? ==> ChunkInstance(r.value[|instances|], chunk, docs, lengths, docIdx, targetSeqLength, cfg,
                                    draws.At(|instances|))
    ensures r.Ok? ==> used == Used(|chunk|, r.value[|instances|].isRandomNext, draws.At(|instances|).splitDraw)
  {
    var made;
    made, used := CompleteChunk(db, docIdx, chunk, targetSeqLength, cfg, draws.At(|instances|), docs, lengths);
    if made.Err? {
      return Err(made.error), used;
    }
    r := Ok(instances + [made.value]);
    assert r.value[..|instances|] == instances;
  }

  /** The target length: with the short-sequence coin, `randint(2,
      max_num_tokens)`, otherwise `max_num_tokens`. */
  function TargetSeqLength(cfg: Config, draws: Draws): (t: int)
    requires !(draws.shortSeq && cfg.maxSeqLength < 5)
    ensures draws.shortSeq ==> 2 <= t <= cfg.maxSeqLength - 3
    ensures !draws.shortSeq ==> t == cfg.maxSeqLength - 3
  {
    if draws.shortSeq then Random.RandRange(2, cfg.maxSeqLength - 2, draws.targetDraw) else cfg.maxSeqLength - 3
  }

  /** `create_instances_from_document`: fetch the document, draw the target
      length, and walk the document. */
  method CreateInstancesFromDocument(db: DocumentStore.DocumentDatabase, docIdx: nat, cfg: Config, draws: Draws)
    returns (r: Result<seq<Instance>>, ghost starts: seq<nat>, ghost ends: seq<nat>)
    requires db.Valid()
    modifies db`docCumsum, db`cumsumMax
    ensures db.Valid()
    ensures db.documents == old(db.documents) && db.docLengths == old(db.docLengths)
    ensures docIdx >= |db.documents| ==> r == Err(IndexError)
    ensures docIdx < |db.documents| && draws.shortSeq && cfg.maxSeqLength < 5 ==> r == Err(ValueError)
    ensures r.Err? && docIdx < |db.documents| && !(draws.shortSeq && cfg.maxSeqLength < 5) ==>
              || (r.error == ValueError && |db.documents| < 2
                  && exists insts, lo :: ReachesRandomNext(insts, starts, ends, db.documents[docIdx], db.documents,
                                                           db.docLengths, docIdx, TargetSeqLength(cfg, draws),
                                                           cfg, draws, lo))
              || (r.error == AssertionError && (cfg.maxSeqLength < 3 || cfg.maxPredictionsPerSeq < 0))
    ensures (docIdx < |db.documents| && |db.documents| >= 2 && cfg.maxSeqLength >= 3
             && cfg.maxPredictionsPerSeq >= 0 && !(draws.shortSeq && cfg.maxSeqLength < 5)) ==> r.Ok?
    ensures r.Ok? ==> && docIdx < |db.documents| && !(draws.shortSeq && cfg.maxSeqLength < 5)
                      && 1 <= |r.value| <= |db.documents[docIdx]|
                      && Tiled(r.value, starts, ends, draws, |db.documents[docIdx]|)
                      && ChunksMade(r.value, starts, ends, db.documents[docIdx], db.documents, db.docLengths, docIdx,
                                    TargetSeqLength(cfg, draws), cfg, draws)
                      && ChunksClosed(starts, ends, db.documents[docIdx], TargetSeqLength(cfg, draws))
  {
    starts, ends := [], [];
    var got := db.GetItem(docIdx);
    if got.Err? {
      return Err(got.error), starts, ends;
    }
    var maxNumTokens := cfg.maxSeqLength - 3;
    var targetSeqLength := maxNumTokens;
    if draws.shortSeq {
      // randint(2, max_num_tokens)
      if maxNumTokens + 1 <= 2 {
        return Err(ValueError), starts, ends;
      }
      targetSeqLength := Random.RandRange(2, maxNumTokens + 1, draws.targetDraw);
    }
    assert targetSeqLength == TargetSeqLength(cfg, draws);
    r, starts, ends := WalkDocument(db, docIdx, targetSeqLength, cfg, draws);
  }

  /** One chunk of the walk: from sentence `lo`, append sentences to
      `current_chunk`, adding their lengths to `current_length`, until the
      sentence just taken is the last one or the count reaches the target. */
  method GatherChunk(document: Document, lo: nat, targetSeqLength: int) returns (chunk: seq<Sentence>, hi: nat)
    requires lo < |document|
    ensures lo < hi <= |document|
    ensures hi == ChunkEnd(document, lo, targetSeqLength)
    ensures chunk == document[lo..hi]
  {
    chunk := [];
    var currentLength := 0;
    var i := lo;
    while true
      invariant lo <= i < |document|
      invariant chunk == document[lo..i]
      invariant OpenChunk(document, lo, i, currentLength, targetSeqLength)
      decreases |document| - i
    {
      var segment := document[i];
      ChunkGrows(document, lo, i, currentLength, targetSeqLength);
      chunk := chunk + [segment];
      currentLength := currentLength + |segment|;
      if i == |document| - 1 || currentLength >= targetSeqLength {
        return chunk, i + 1;
      }
      i := i + 1;
    }
  }

  /** The walk over the sentences of document `docIdx`, chunk by chunk. The
      cursor `i` is where the current chunk begins; `GatherChunk` takes in
      sentences up to the closing point. After a random next segment the
      sentences after A are put back, so the next chunk begins right after
      the sentences the instance used, which is still past the chunk's first
      sentence: every instance consumes at least one sentence and the walk
      ends, and when it ends the sentences the instances used cover the
      document. */
  method WalkDocument(db: DocumentStore.DocumentDatabase, docIdx: nat, targetSeqLength: int, cfg: Config, draws: Draws)
    returns (r: Result<seq<Instance>>, ghost starts: seq<nat>, ghost ends: seq<nat>)
    requires db.Valid() && docIdx < |db.documents|
    modifies db`docCumsum, db`cumsumMax
    ensures db.Valid()
    ensures db.documents == old(db.documents) && db.docLengths == old(db.docLengths)
    ensures r.Err? ==> || (r.error == ValueError && |db.documents| < 2
                           && exists insts, lo :: ReachesRandomNext(insts, starts, ends, db.documents[docIdx],
                                                                    db.documents, db.docLengths, docIdx,
                                                                    targetSeqLength, cfg, draws, lo))
                       || (r.error == AssertionError && (cfg.maxSeqLength < 3 || cfg.maxPredictionsPerSeq < 0))
    ensures |db.documents| >= 2 && cfg.maxSeqLength >= 3 && cfg.maxPredictionsPerSeq >= 0 ==> r.Ok?
    ensures r.Ok? ==> 1 <= |r.value| <= |db.documents[docIdx]|
    ensures r.Ok? ==> Tiled(r.value, starts, ends, draws, |db.documents[docIdx]|)
    ensures r.Ok? ==> ChunksMade(r.value, starts, ends, db.documents[docIdx], db.documents, db.docLengths, docIdx,
                                 targetSeqLength, cfg, draws)
    ensures r.Ok? ==> ChunksClosed(starts, ends, db.documents[docIdx], targetSeqLength)
  {
    var document := db.documents[docIdx];
    ghost var docs, lengths := db.documents, db.docLengths;
    var instances: seq<Instance> := [];
    starts, ends := [], [];
    var i: nat := 0;
    while i < |document|
      invariant db.Valid() && db.documents == docs && db.docLengths == lengths
      invariant i <= |document|
      invariant Walked(instances, starts, ends, document, docs, lengths, docIdx, targetSeqLength, cfg, draws, i)
      decreases |document| - i
    {
      var chunk, hi := GatherChunk(document, i, targetSeqLength);
      var grown, used := CloseChunk(db, docIdx, chunk, targetSeqLength, cfg, draws, instances, docs, lengths);
      if grown.Err? {
        assert grown.error == ValueError ==>
                 ReachesRandomNext(instances, starts, ends, document, docs, lengths, docIdx, targetSeqLength,
                                   cfg, draws, i);
        return Err(grown.error), starts, ends;
      }
      WalkedSnoc(instances, starts, ends, document, docs, lengths, docIdx, targetSeqLength, cfg, draws,
                 i, hi, chunk, grown.value, used);
      instances, starts, ends := grown.value, starts + [i], ends + [hi];
      // the unused sentences are put back
      i := i + used;
    }
    TiledAdvances(instances, starts, ends, draws, i);
    r := Ok(instances);
  }
}
