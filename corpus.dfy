/** Shared vocabulary of the pre-training data generator: tokens, sentences,
    documents, the marker tokens and the errors the generator can raise. */
module Corpus {

  type Token = string
  /** A sentence is the token list of one line of the corpus. */
  type Sentence = seq<Token>
  /** A document is the list of its sentences. */
  type Document = seq<Sentence>

  const ClsToken: Token := "[CLS]"
  const SepToken: Token := "[SEP]"
  const MaskToken: Token := "[MASK]"

  /** The exceptions the Python code raises on the paths the model keeps. */
  datatype Error =
    | IndexError    // indexing past the end of a list or array
    | ValueError    // randrange/randint over an empty range
    | AssertionError  // the asserts inside truncate_seq_pair and create_masked_lm_predictions

  datatype Option<+T> = None | Some(value: T)

  datatype Result<+T> = Ok(value: T) | Err(error: Error)

  /** The tokens of a run of sentences, in order (what repeated `extend` builds). */
  function Concat(sentences: seq<Sentence>): seq<Token>
  {
    if sentences == [] then [] else Concat(sentences[..|sentences| - 1]) + sentences[|sentences| - 1]
  }

  /** The number of tokens in a run of sentences. */
  function TokenCount(sentences: seq<Sentence>): nat
  {
    if sentences == [] then 0 else TokenCount(sentences[..|sentences| - 1]) + |sentences[|sentences| - 1]|
  }

  lemma {:induction false} ConcatLength(sentences: seq<Sentence>)
    ensures |Concat(sentences)| == TokenCount(sentences)
  {
    if sentences != [] {
      ConcatLength(sentences[..|sentences| - 1]);
    }
  }

  /** Appending one sentence to a run appends its tokens. */
  lemma ConcatSnoc(sentences: seq<Sentence>, s: Sentence)
    ensures Concat(sentences + [s]) == Concat(sentences) + s
    ensures TokenCount(sentences + [s]) == TokenCount(sentences) + |s|
  {
    assert (sentences + [s])[..|sentences|] == sentences;
  }

  /** `part` is a contiguous run of `whole`. */
  ghost predicate IsSlice<T>(part: seq<T>, whole: seq<T>)
  {
    exists lo, hi :: 0 <= lo <= hi <= |whole| && part == whole[lo..hi]
  }

  /** A contiguous run of a contiguous run of `whole` is a run of `whole`. */
  lemma SliceOfSlice<T>(part: seq<T>, mid: seq<T>, whole: seq<T>)
    requires IsSlice(part, mid) && IsSlice(mid, whole)
    ensures IsSlice(part, whole)
  {
    var lo, hi :| 0 <= lo <= hi <= |mid| && part == mid[lo..hi];
    var lo', hi' :| 0 <= lo' <= hi' <= |whole| && mid == whole[lo'..hi'];
    assert forall i :: 0 <= i < |part| ==> part[i] == mid[lo + i] == whole[lo' + lo + i];
    assert part == whole[lo' + lo..lo' + hi];
  }

  predicate StrictlyAscending(s: seq<nat>)
  {
    forall i, j :: 0 <= i < j < |s| ==> s[i] < s[j]
  }

  /** The set of elements of a sequence. */
  function Elems<T>(s: seq<T>): set<T>
  {
    set x | x in s
  }
}
