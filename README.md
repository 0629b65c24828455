# Pre-training instance generation, modelled in Dafny

This project models the instance-generation engine of the ZEN pre-training
data script (`examples/create_pre_train_data.py`). The engine turns a corpus
of documents into training instances for a masked language model with
next-sentence prediction. A document is a list of sentences, and a sentence
is a list of token strings.

An instance is `[CLS] A [SEP] B [SEP]`. It carries:

- segment ids;
- masked-LM positions and labels;
- the 2- to 7-gram dictionary spans it contains.

The model has five parts, one module each:

- `DocumentStore`: the in-memory `DocumentDatabase`. It is a class whose
  methods append documents and cache the prefix sums of their sentence
  counts. `sample_doc` draws another document, either weighted by sentence
  count or uniformly.
- `Truncation`: `truncate_seq_pair`, the token-by-token trimming of a
  segment pair.
- `Masking`: `create_masked_lm_predictions`. It builds the candidate groups
  (whole-word groups for `##` pieces), masks groups greedily within the
  budget and rewrites the token array in place. It returns the labels
  sorted by position.
- `Ngrams`: the n-gram scan and the random bounded selection of matches.
- `Instances`: `create_instances_from_document`, which has the cursor loop,
  the chunks, the A/B split, the random or true next segment, assembly,
  masking and n-gram annotation.

`Corpus` holds the shared types, the marker tokens and the errors. `Random`
holds `randrange` and Python's Fisher–Yates `shuffle`.

Randomness is passed in as oracle values:

- a `randrange(lo, hi)` result is `lo + draw % (hi - lo)` for an arbitrary
  natural `draw`;
- a coin is a `bool`;
- a run of draws (the steps of a shuffle, the coins of truncation, the
  replacements of the masked tokens, the draws of each instance of a
  document) is a `Random.Stream`: the draws listed first, then one value
  repeated for ever. A run reads only finitely many draws, so every
  sequence of outcomes a run can see is such a stream.

Every contract therefore holds whatever the random source returns. The
numeric settings `max_seq_length`, `max_ngram_in_seq` and
`max_predictions_per_seq` are unbounded integers, so negative values are
modelled too. Each Python exception that these paths can raise is a
`Result` error:

- `IndexError`: a document index past the end, or the prefix sums of an
  empty store.
- `ValueError`: `randrange`/`randint` over an empty range. This covers
  sampling with fewer than two documents, which happens only for a chunk
  that takes a random next segment, and `randint(2, m)` with `m < 2`
  when a short target is drawn.
- `AssertionError`: two assertions. The first is
  `assert len(trunc_tokens) >= 1` in `truncate_seq_pair`. It fails exactly
  when the budget `max_seq_length - 3` is negative, because the lists are
  emptied and still over budget. The second is
  `assert len(masked_lms) <= num_to_mask` in `create_masked_lm_predictions`.
  It fails exactly when `max_predictions_per_seq` is negative, which makes
  `num_to_mask` negative.

A negative `max_ngram_in_seq` makes `ngram_matches[:max_ngram_in_seq]`
drop matches from the end of the list. `Ngrams.PrefixLength` gives the
length of that slice.

`sample_doc` returns the sampled document. `SampleDoc` also returns its
index, so that its contract can say which document was drawn.

## Model

| member | source | states |
|---|---|---|
| Corpus.ConcatLength | examples/create_pre_train_data.py:287-289 | the tokens gathered by extending with a run of sentences number exactly the sum of their lengths |
| Random.RandRange | examples/create_pre_train_data.py:304 | a `randrange(lo, hi)` result lies in `[lo, hi)` |
| Random.RandRangeReaches | examples/create_pre_train_data.py:304 | every value of `[lo, hi)` is the result of some draw |
| Random.Shuffle | examples/create_pre_train_data.py:180 | the shuffled list is the input re-ordered by a permutation of its positions, with the same multiset of elements |
| DocumentStore.PrefixSumsAt | examples/create_pre_train_data.py:89 | entry i of `cumsum(doc_lengths)` is the sum of the first i+1 sentence counts |
| DocumentStore.SumMonotone | examples/create_pre_train_data.py:89 | the running sums never decrease |
| DocumentStore.SpansDisjoint | examples/create_pre_train_data.py:99-102 | no sentence position lies in the spans of two different documents |
| DocumentStore.SpanInsideTotal | examples/create_pre_train_data.py:99-100 | each document's sentence span ends at its cumulative sum, which is at most the total |
| DocumentStore.SearchRight | examples/create_pre_train_data.py:102 | `searchsorted(..., side='right')`: every entry before the result is at most x, and the entry at the result is above x |
| DocumentStore.SearchRightFindsOwner | examples/create_pre_train_data.py:102 | for a position below the total, the right search over the prefix sums returns the document whose span holds that position |
| DocumentStore.OthersNonEmpty | examples/create_pre_train_data.py:100 | with two or more non-empty documents, the other documents hold at least one sentence |
| DocumentStore.WeightedPosition | examples/create_pre_train_data.py:99-101 | the drawn sentence position, wrapped modulo the total, lies below the total and outside the current document's span |
| DocumentStore.WeightedIndex | examples/create_pre_train_data.py:99-102 | the weighted draw returns a valid document index that is never the current one, and that document owns the drawn position |
| DocumentStore.WrapOffset | examples/create_pre_train_data.py:101 | every position outside the excluded window is reached by the in-range offset that wraps to it |
| DocumentStore.WeightedReachesPosition | examples/create_pre_train_data.py:99-101 | every sentence outside the current document is drawn by some draw below the number of other sentences |
| DocumentStore.WeightedPositionInjective | examples/create_pre_train_data.py:99-101 | distinct draws within the range give distinct sentence positions, so each sentence of another document is one outcome of the range |
| DocumentStore.WeightedReachesDocument | examples/create_pre_train_data.py:99-102 | every document other than the current one is returned by some draw |
| DocumentStore.UniformIndex | examples/create_pre_train_data.py:105 | `(cur + randrange(1, n)) % n` is a valid index other than `cur` |
| DocumentStore.UniformReaches | examples/create_pre_train_data.py:105 | every index other than `cur` is returned by some draw |
| DocumentStore.CachedRange | examples/create_pre_train_data.py:99-100 | read from the cache, `rand_start` is the end of the current span and `cumsum_max` the total; the range is non-empty exactly when there are two or more documents |
| DocumentStore.CachedDrawIsWeightedIndex | examples/create_pre_train_data.py:99-102 | the cached computation (range, modulo, right search) returns the weighted index |
| DocumentStore.DocumentDatabase.constructor | examples/create_pre_train_data.py:66-73 | a new store is empty, has no cache, and satisfies the store invariant |
| DocumentStore.DocumentDatabase.Length | examples/create_pre_train_data.py:112-113 | `__len__` is the number of documents |
| DocumentStore.DocumentDatabase.AddDocument | examples/create_pre_train_data.py:76-86 | an empty document changes nothing; otherwise the document and its sentence count are appended, earlier entries are kept and the length grows by one; the invariant is kept |
| DocumentStore.DocumentDatabase.GetItem | examples/create_pre_train_data.py:115-119 | returns the document at the index, or IndexError past the end |
| DocumentStore.DocumentDatabase.PrecalculateDocWeights | examples/create_pre_train_data.py:88-90 | the cache becomes the prefix sums of the sentence counts and `cumsum_max` their total |
| DocumentStore.DocumentDatabase.WeightedSample | examples/create_pre_train_data.py:95-102 | with a current cache: succeeds exactly when there are two or more documents and the current index is valid, and then returns the weighted index and its document; otherwise IndexError for a bad index, else ValueError |
| DocumentStore.DocumentDatabase.SampleDoc | examples/create_pre_train_data.py:93-110 | never returns the current document; weighted mode rebuilds a stale cache and returns the weighted index, uniform mode the uniform index; the documents are unchanged; the exact conditions for success and for each error |
| Truncation.BalancedLengths | examples/create_pre_train_data.py:133-147 | the closed-form final lengths: a pair that fits is kept; otherwise the lengths total exactly the budget, neither list grows, and one list keeps its length or the budget is split evenly |
| Truncation.RemovalIsBalanced | examples/create_pre_train_data.py:133-147 | the one-token-at-a-time policy (remove from the longer list, a tie from B) ends at the closed-form lengths |
| Truncation.TruncatedMeetsBudget | examples/create_pre_train_data.py:131-147 | the removal sequence fails with AssertionError exactly for a negative budget; otherwise the lists end at the policy's lengths and each is a contiguous slice of its original |
| Truncation.TruncateSeqPair | examples/create_pre_train_data.py:131-147 | the removal loop ends in the outcome of the removal sequence: AssertionError exactly for a negative budget; otherwise both lists at the policy's lengths, their total at most the budget (exactly the budget when it was over), each a contiguous slice of its original |
| Masking.NonSpecialIndicesSpec | examples/create_pre_train_data.py:161-163 | the candidate positions are exactly the positions whose token is not `[CLS]` or `[SEP]`, in ascending order |
| Masking.GroupsCoverNonSpecial | examples/create_pre_train_data.py:161-176 | the groups laid end to end are exactly the non-marker positions, so every such position is in exactly one group |
| Masking.GroupsWellFormed | examples/create_pre_train_data.py:161-176 | every group is non-empty, ascending and free of markers, and no two groups share a position |
| Masking.GroupsFollowWords | examples/create_pre_train_data.py:173-176 | without whole-word mode every group is one position; with it, every position after a group's first holds a `##` piece, and every group but the first starts with a piece that is not one |
| Masking.CandidateIndices | examples/create_pre_train_data.py:157-176 | the loop builds exactly the group list defined by the scan |
| Masking.NumToMask | examples/create_pre_train_data.py:178-179 | the budget is at most `max_predictions_per_seq`, and it is either that cap or at least 1 and at least the rounded product, so it is the smaller of the cap and the product raised to 1; it is negative exactly when `max_predictions_per_seq` is |
| Masking.Replace | examples/create_pre_train_data.py:207-220 | a masked token becomes `[MASK]`, stays the original, or becomes a letter of `a c t g` |
| Masking.InsertByIndex | examples/create_pre_train_data.py:227 | inserting into an index-sorted list keeps it sorted and adds exactly the new record |
| Masking.SortByIndex | examples/create_pre_train_data.py:227 | `sorted(key=index)` is sorted by index and is a permutation of its input |
| Masking.SortStrict | examples/create_pre_train_data.py:227 | sorting records with distinct indices gives strictly ascending indices |
| Masking.MaskStepKeepsState | examples/create_pre_train_data.py:204-224 | masking one uncovered position records its original token, rewrites it by its replacement and keeps the bookkeeping |
| Masking.MaskGroup | examples/create_pre_train_data.py:204-224 | masking a group covers exactly its positions and keeps the bookkeeping; the earlier records stay as they were, one record per position is appended in the group's order, and every token outside the group is unchanged |
| Masking.MaskStateFrame | examples/create_pre_train_data.py:204-224 | between two bookkeeping states where the later keeps the earlier records and covers some positions besides, only those positions have changed |
| Masking.AnyCovered | examples/create_pre_train_data.py:195-201 | the covered test is true exactly when some position of the group is already covered |
| Masking.ShuffledWellFormed | examples/create_pre_train_data.py:180 | the shuffled groups are still well formed |
| Masking.ShuffledHoldsGroup | examples/create_pre_train_data.py:180 | every candidate group appears in the shuffled list |
| Masking.SortedReport | examples/create_pre_train_data.py:227-229 | the sorted report has one entry per masked record, each taken from the records, with the same set of positions |
| Masking.ReportMatchesState | examples/create_pre_train_data.py:226-229 | the reported positions are strictly ascending and are exactly the covered set; each label is the original non-marker token there; each masked position holds a replacement of its label; all other positions are untouched |
| Masking.SkipKeepsProgress | examples/create_pre_train_data.py:190-191 | skipping a group over the budget keeps the greedy invariant |
| Masking.TakeKeepsProgress | examples/create_pre_train_data.py:203-205 | masking a whole group keeps the greedy invariant, because the groups are disjoint |
| Masking.ProgressAtEnd | examples/create_pre_train_data.py:183-185 | when the pass stops, every group is wholly masked or untouched, and an untouched one did not fit the budget |
| Masking.GreedyMask | examples/create_pre_train_data.py:181-225 | the greedy pass masks at most the budget, keeps the bookkeeping, masks every group all-or-nothing, and leaves a group untouched only when it would not fit |
| Masking.CreateMaskedLmPredictions | examples/create_pre_train_data.py:154-232 | AssertionError exactly when `max_predictions_per_seq` is negative, leaving the tokens unchanged; otherwise the count is at most `num_to_mask`; positions are strictly ascending; each label is the pre-mask non-marker token at its position; masked positions hold a replacement; other tokens are unchanged; every candidate group is masked whole or not at all, and an unmasked group would have exceeded the budget |
| Ngrams.ScanNgrams | examples/create_pre_train_data.py:333-348 | every recorded match is a 2- to 7-token span whose tuple the dictionary maps to its id; every such span is recorded; the matches come in scan order |
| Ngrams.SelectNgrams | examples/create_pre_train_data.py:349-351 | the kept matches number exactly as many as `matches[:max_ngram_in_seq]` keeps when the list is longer than `max_ngram_in_seq`, all of them otherwise, and are a sub-multiset of the scan |
| Ngrams.SelectionKeepsScan | examples/create_pre_train_data.py:349-351 | any sub-multiset of the scan keeps every match valid and never lists a span twice |
| Ngrams.ScanHoldsOnce | examples/create_pre_train_data.py:336-344 | the scan records no match twice |
| Instances.Assemble | examples/create_pre_train_data.py:322 | the tokens are `[CLS]`, A, `[SEP]`, B, `[SEP]`, and A and B can be read back from their positions |
| Instances.SegmentIds | examples/create_pre_train_data.py:325 | one id per token: 0 for the first `len(A) + 2` tokens and 1 after |
| Instances.SegmentIdsShape | examples/create_pre_train_data.py:325 | `[CLS]` and the first `[SEP]` are in segment 0, the first B token and the last `[SEP]` in segment 1, and the ids never decrease |
| Instances.UnmaskedAt | examples/create_pre_train_data.py:330-331 | giving each masked position back its label restores the labels there and changes nothing else |
| Instances.UnmaskedMeans | examples/create_pre_train_data.py:330-331 | undoing the masking gives a token list exactly when the labels are that list's tokens at their positions and the unmasked tokens already agree with it (both directions) |
| Instances.NgramSegmentAgrees | examples/create_pre_train_data.py:352-357 | each n-gram's segment id is the segment id of the token it starts at, and that token lies inside the instance |
| Instances.AnnotateNgrams | examples/create_pre_train_data.py:333-357 | the five n-gram lists run in parallel and spell out a sub-multiset of the complete scan of the masked tokens, as many matches as `[:max_ngram_in_seq]` keeps; every match is a valid dictionary span, no span is listed twice, and the segment id is 0 exactly when the n-gram starts in `[CLS] A [SEP]` |
| Instances.MaskAssembled | examples/create_pre_train_data.py:322-331 | AssertionError exactly when `max_predictions_per_seq` is negative; otherwise the assembled tokens masked as the masking pass promises (within budget, ascending, labels the original tokens, whole groups or none, no untouched group that would still fit) with the three markers in place |
| Instances.BuildInstance | examples/create_pre_train_data.py:322-370 | AssertionError exactly when `max_predictions_per_seq` is negative; otherwise the instance fits `max_seq_length`, has the segment ids of `[CLS] A [SEP] B [SEP]`, is that sequence masked as the masking pass promises, carries the n-gram fields over its masked tokens, and keeps the flag |
| Instances.WellFormedRenders | examples/create_pre_train_data.py:322-331 | giving the masked positions of a built instance back their labels yields exactly `[CLS] a [SEP] b [SEP]` |
| Instances.PairInstance | examples/create_pre_train_data.py:320-370 | AssertionError exactly when `max_seq_length < 3` or `max_predictions_per_seq < 0`; otherwise the instance is the one built from the truncated pair, whose lengths are the balanced removal lengths for budget `max_seq_length - 3` and which are contiguous slices of the two segments |
| Instances.SplitPoint | examples/create_pre_train_data.py:282-284 | `a_end` is in `[1, len(chunk) - 1]` for a chunk of two or more sentences, and 1 otherwise |
| Instances.SplitPointReaches | examples/create_pre_train_data.py:282-284 | every split in that range is drawn by some draw |
| Instances.JoinSentences | examples/create_pre_train_data.py:287-289 | the extend loop yields the concatenated tokens of the sentence range, and their count |
| Instances.RandomNextSegment | examples/create_pre_train_data.py:304-308 | B is the tokens of a non-empty run of sentences from the start; the run stops at the first sentence that reaches the B target, or at the end of the document |
| Instances.SampleNextSegment | examples/create_pre_train_data.py:296-308 | ValueError exactly when the store has fewer than two documents; otherwise B is the tokens of the weighted draw's document (never the current one) from the drawn start sentence up to the first sentence that brings it to `target_b_length`, or to the end of that document |
| Instances.ChunkInstanceIntro | examples/create_pre_train_data.py:280-320 | an instance flagged random next exactly when the chunk has one sentence or the coin says so, with B the random next segment drawn for the budget left after A (random next) or the chunk's sentences after A (true next), and built from A and that B, is the instance made from the chunk |
| Instances.Used | examples/create_pre_train_data.py:309-319 | an instance uses between 1 and all sentences of its chunk, and fewer than all when a random next segment is drawn for a chunk of two or more |
| Instances.CompleteChunk | examples/create_pre_train_data.py:280-370 | the errors of sampling, truncation and masking, each only under its condition (ValueError only with fewer than two documents and a chunk that takes a random next segment, that is a one-sentence chunk or the coin), and success otherwise, so a chunk with two or more sentences and the coin false succeeds even in a one-document store; the instance is the one built from A = the chunk's first `a_end` sentences and B = the random next segment drawn for `target_seq_length - len(A)` (one-sentence chunk or coin) or the chunk's rest, truncated and masked; the cursor advances by `a_end` after a random next and by the whole chunk otherwise |
| Instances.TargetSeqLength | examples/create_pre_train_data.py:258-260 | the target length is `max_seq_length - 3`, or a value in `[2, max_seq_length - 3]` when the short-sequence coin is drawn |
| Instances.ChunkEndFromStops | examples/create_pre_train_data.py:271-278 | from a run of sentences that has not reached the target, the closing rule ends the chunk at the first sentence that brings it to the target, or at the end of the document |
| Instances.ChunkEndStops | examples/create_pre_train_data.py:271-278 | the chunk starting at a sentence holds at least that sentence and ends by the stopping rule: shorter than the target at every earlier end, and at least the target unless it ends the document |
| Instances.ChunkGrows | examples/create_pre_train_data.py:272-278 | appending sentence i closes the chunk exactly when it is the last sentence or the count reaches the target, and then the chunk ends right after it; otherwise the chunk stays open with the count grown by the sentence's length |
| Instances.ChunksClosedSnoc | examples/create_pre_train_data.py:278 | recording a chunk that ends by the closing rule keeps every recorded chunk closed by that rule |
| Instances.ChunksClosedAt | examples/create_pre_train_data.py:271-278 | each recorded chunk of the walk is non-empty, inside the document, and ends by the stopping rule |
| Instances.TiledSnoc | examples/create_pre_train_data.py:309-313 | closing a chunk that starts where the walk is extends the record of the walk, which then resumes after the sentences the instance used |
| Instances.ChunksMadeSnoc | examples/create_pre_train_data.py:370 | appending the instance made from a chunk of the document keeps every instance the one made from its chunk with its draws |
| Instances.TiledAdvances | examples/create_pre_train_data.py:270-373 | the chunks of a walk start at strictly increasing sentences, all before where the walk resumes, so there are at most as many instances as sentences walked |
| Instances.GatherChunk | examples/create_pre_train_data.py:268-278 | from a chunk's first sentence, sentences are appended one by one until the closing rule holds; the chunk gathered is exactly the sentences from its first up to where the closing rule says it ends, and it holds at least one sentence |
| Instances.WalkedSnoc | examples/create_pre_train_data.py:278-373 | closing a chunk that starts where the walk is and ends by the closing rule, with the instance made from it, extends the record of the walk: every instance is still the one made from its chunk, every chunk ends by the closing rule, and the walk resumes after the sentences the new instance used |
| Instances.CloseChunk | examples/create_pre_train_data.py:278-372 | the errors of the chunk, each only under its condition (ValueError only with fewer than two documents and a chunk that takes a random next segment with the draws for its position), and success otherwise; on success exactly one instance is appended after the unchanged earlier ones, it is the one made from the chunk with the draws for its position, and the sentences it used are counted by the A/B split |
| Instances.WalkDocument | examples/create_pre_train_data.py:267-375 | the walk terminates; it fails only with the truncation or masking errors under their conditions, or with ValueError when the store has fewer than two documents and the walk, as recorded up to that point, reaches a chunk that takes a random next segment (one sentence, or the coin of its draws); so it succeeds whenever none of these holds, including a one-document walk whose chunks all take the actual next segment, and with two or more documents and valid settings it always succeeds; on success it makes 1 to `len(document)` instances; the k-th is the one made with the k-th draws from the chunk of sentences `starts[k]..ends[k]`; each chunk starts where the previous instance stopped using sentences, the sentences used run to the end of the document, and each chunk ends where the closing rule says |
| Instances.CreateInstancesFromDocument | examples/create_pre_train_data.py:240-375 | IndexError for a bad document index; ValueError when a short target is drawn with `max_seq_length < 5`; otherwise the outcome of the walk with the drawn target length, failing with ValueError only when the store has fewer than two documents and the walk reaches a chunk that takes a random next segment, including which chunk each instance was made from; the store's documents are unchanged |

## Left out

- The `reduce_memory` shelve and temporary-directory store, and `__enter__`/`__exit__` (`:56-65`, `:121-128`), are left out because they are disk I/O. Only the in-memory list store is modelled.
- `main()`, `ZEN/file_utils.py` and `examples/change_data_form.py` are not part of this model. They cover argument parsing, file and network I/O, and serialisation.
- Float probabilities are replaced by oracle values. This covers `random() < 0.5` and `< 0.8`, `short_seq_prob` and `round(len(tokens) * masked_lm_prob)`. The rounded product is a function in the configuration (`maskedCount`), and the 80/10/10 choice is a `Replacement` value per masked token.
- Statistical frequencies are not modelled. The model proves which documents and positions each draw can reach and that distinct draws in the range give distinct positions, not probabilities.
- The `numpy` `cumsum`/`searchsorted` calls are left out. They are defined directly on sequences of naturals.
- `vocab_list` is left out. It is passed through and never read.
- The `if current_chunk:` test (`:279`) is left out. It always holds at that point, because a sentence was just appended.
- The single `while i < len(document)` loop (`:271-373`) is written as two nested loops with the same effect. `GatherChunk` is the appending part, repeated until the closing test holds. `WalkDocument` closes each chunk and moves the cursor to the sentence after the ones used, which is where `i -= num_unused_segments; i += 1` leaves it.
- In-place updates of Python lists (`del`/`pop` in truncation, `extend`/`append` when building segments and the instance list) become reassignments of immutable sequences. No aliasing is lost, because these lists are local to the call. The one in-place rewrite visible to a caller, `tokens[index] = masked_token`, is kept on an array.
- Ngrams.SelectNgrams: the contract states how many matches are kept and that they come from the scan, not which ones the shuffle puts first. The shuffle itself is proved a permutation in `Random.Shuffle`.
- DocumentStore.DocumentDatabase.PrecalculateDocWeights requires a non-empty store. On an empty store the source fails with IndexError; `SampleDoc` returns that error without calling the method.
