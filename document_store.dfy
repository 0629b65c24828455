/** The document store (`DocumentDatabase`, in-memory variant): an
    append-only list of documents, the parallel list of their sentence
    counts, and a lazily rebuilt prefix-sum cache used to sample a document
    other than the current one, weighted by sentence count. */
module DocumentStore {
  import opened Corpus
  import Random

  /** Sum of a list of counts. */
  function Sum(s: seq<nat>): nat
  {
    if s == [] then 0 else Sum(s[..|s| - 1]) + s[|s| - 1]
  }

  /** `np.cumsum`: entry i is the sum of the first i+1 counts. */
  function PrefixSums(s: seq<nat>): (c: seq<nat>)
    ensures |c| == |s|
  {
    if s == [] then [] else PrefixSums(s[..|s| - 1]) + [Sum(s)]
  }

  /** Entry i of the cumulative sums is the sum of the first i+1 counts. */
  lemma {:induction false} PrefixSumsAt(s: seq<nat>, i: nat)
    requires i < |s|
    ensures PrefixSums(s)[i] == Sum(s[..i + 1])
  {
    var init := s[..|s| - 1];
    if i < |init| {
      PrefixSumsAt(init, i);
      assert init[..i + 1] == s[..i + 1];
    } else {
      assert s[..i + 1] == s;
    }
  }

  /** y % t for 0 <= y < 2t: one subtraction at most. */
  lemma ModWrap(y: int, t: int)
    requires t > 0 && 0 <= y < 2 * t
    ensures y % t == if y < t then y else y - t
  {
    var q := y / t;
    assert y == t * q + y % t && 0 <= y % t < t;
  }

  /** The cumulative sums of a list extended by one count extend the old ones. */
  lemma PrefixSumsSnoc(s: seq<nat>, x: nat)
    ensures PrefixSums(s + [x]) == PrefixSums(s) + [Sum(s) + x]
  {
    assert (s + [x])[..|s|] == s;
  }

  lemma SumSnoc(s: seq<nat>, i: nat)
    requires i < |s|
    ensures Sum(s[..i + 1]) == Sum(s[..i]) + s[i]
  {
    assert s[..i + 1][..i] == s[..i];
  }

  lemma {:induction false} SumMonotone(s: seq<nat>, i: nat, j: nat)
    requires i <= j <= |s|
    ensures Sum(s[..i]) <= Sum(s[..j])
  {
    if i < j {
      SumMonotone(s, i, j - 1);
      SumSnoc(s, j - 1);
    }
  }

  /** Every document of the store holds at least one sentence. */
  predicate AllPositive(lengths: seq<nat>)
  {
    forall i :: 0 <= i < |lengths| ==> lengths[i] > 0
  }

  /** Document i owns the global sentence positions [SpanStart(i), SpanEnd(i)). */
  function SpanStart(lengths: seq<nat>, i: nat): nat
    requires i < |lengths|
  {
    Sum(lengths[..i])
  }

  function SpanEnd(lengths: seq<nat>, i: nat): nat
    requires i < |lengths|
  {
    Sum(lengths[..i + 1])
  }

  predicate InSpan(lengths: seq<nat>, i: nat, x: nat)
    requires i < |lengths|
  {
    SpanStart(lengths, i) <= x < SpanEnd(lengths, i)
  }

  /** The spans of two different documents never overlap. */
  lemma SpansDisjoint(lengths: seq<nat>, a: nat, b: nat, x: nat)
    requires a < |lengths| && b < |lengths|
    requires InSpan(lengths, a, x) && InSpan(lengths, b, x)
    ensures a == b
  {
    if a < b {
      SumMonotone(lengths, a + 1, b);
    } else if b < a {
      SumMonotone(lengths, b + 1, a);
    }
  }

  lemma SpanInsideTotal(lengths: seq<nat>, i: nat)
    requires i < |lengths|
    ensures SpanEnd(lengths, i) <= Sum(lengths)
    ensures SpanEnd(lengths, i) == SpanStart(lengths, i) + lengths[i]
  {
    SumMonotone(lengths, i + 1, |lengths|);
    assert lengths[..|lengths|] == lengths;
    SumSnoc(lengths, i);
  }

  /** `np.searchsorted(c, x, side='right')`: the first index whose entry
      exceeds x, i.e. the number of leading entries that are at most x. */
  function SearchRight(c: seq<nat>, x: nat): (r: nat)
    ensures r <= |c|
    ensures forall i :: 0 <= i < r ==> c[i] <= x
    ensures r < |c| ==> c[r] > x
  {
    if c == [] || c[0] > x then 0 else 1 + SearchRight(c[1..], x)
  }

  /** The right-biased search on the cumulative sentence counts finds the
      document whose span holds the sentence position. */
  lemma SearchRightFindsOwner(lengths: seq<nat>, x: nat)
    requires x < Sum(lengths)
    ensures SearchRight(PrefixSums(lengths), x) < |lengths|
    ensures InSpan(lengths, SearchRight(PrefixSums(lengths), x), x)
  {
    var c := PrefixSums(lengths);
    var r := SearchRight(c, x);
    assert lengths[..|lengths|] == lengths;
    PrefixSumsAt(lengths, |lengths| - 1);
    assert c[|lengths| - 1] > x;
    if r > 0 {
      PrefixSumsAt(lengths, r - 1);
      SumSnoc(lengths, r - 1);
      assert c[r - 1] == SpanStart(lengths, r);
    }
    PrefixSumsAt(lengths, r);
  }

  /** With two non-empty documents, the sentences outside one document's span
      number at least one. */
  lemma OthersNonEmpty(lengths: seq<nat>, cur: nat)
    requires AllPositive(lengths) && 2 <= |lengths| && cur < |lengths|
    ensures Sum(lengths) - lengths[cur] >= 1
    ensures Sum(lengths) >= SpanEnd(lengths, cur)
  {
    SpanInsideTotal(lengths, cur);
    var other := if cur == 0 then 1 else 0;
    SpanInsideTotal(lengths, other);
    if other < cur {
      SumMonotone(lengths, other + 1, cur);
    } else {
      SumMonotone(lengths, cur + 1, other);
    }
  }

  /** The number of sentence positions the weighted draw ranges over. */
  function OtherSentences(lengths: seq<nat>, cur: nat): (w: nat)
    requires AllPositive(lengths) && 2 <= |lengths| && cur < |lengths|
    ensures w >= 1
  {
    OthersNonEmpty(lengths, cur);
    Sum(lengths) - lengths[cur]
  }

  /** The global sentence position drawn in weighted mode:
      randrange(cumsum[cur], cumsum[cur] + total - len[cur]) % total. */
  function WeightedPosition(lengths: seq<nat>, cur: nat, draw: nat): (x: nat)
    requires AllPositive(lengths) && 2 <= |lengths| && cur < |lengths|
    ensures x < Sum(lengths)
    ensures !InSpan(lengths, cur, x)
  {
    OthersNonEmpty(lengths, cur);
    SpanInsideTotal(lengths, cur);
    var total := Sum(lengths);
    var start := SpanEnd(lengths, cur);
    var y := Random.RandRange(start, start + OtherSentences(lengths, cur), draw);
    ModWrap(y, total);
    y % total
  }

  /** The document sampled in weighted mode: the owner of the drawn position.
      It is never the current document. */
  function WeightedIndex(lengths: seq<nat>, cur: nat, draw: nat): (r: nat)
    requires AllPositive(lengths) && 2 <= |lengths| && cur < |lengths|
    ensures r < |lengths| && r != cur
    ensures InSpan(lengths, r, WeightedPosition(lengths, cur, draw))
  {
    var x := WeightedPosition(lengths, cur, draw);
    SearchRightFindsOwner(lengths, x);
    var r := SearchRight(PrefixSums(lengths), x);
    assert r != cur;
    r
  }

  /** The offset into the drawn range that lands on sentence position x. */
  function OffsetOf(lengths: seq<nat>, cur: nat, x: nat): nat
    requires AllPositive(lengths) && 2 <= |lengths| && cur < |lengths|
    requires x < Sum(lengths) && !InSpan(lengths, cur, x)
  {
    OthersNonEmpty(lengths, cur);
    var e := SpanEnd(lengths, cur);
    if x >= e then x - e else x + Sum(lengths) - e
  }

  /** Every sentence position outside the current document's span is drawn by
      one offset into the range. */
  lemma WeightedReachesPosition(lengths: seq<nat>, cur: nat, x: nat)
    requires AllPositive(lengths) && 2 <= |lengths| && cur < |lengths|
    requires x < Sum(lengths) && !InSpan(lengths, cur, x)
    ensures OffsetOf(lengths, cur, x) < OtherSentences(lengths, cur)
    ensures WeightedPosition(lengths, cur, OffsetOf(lengths, cur, x)) == x
  {
    OthersNonEmpty(lengths, cur);
    SpanInsideTotal(lengths, cur);
    var d := OffsetOf(lengths, cur, x);
    WrapOffset(SpanEnd(lengths, cur), OtherSentences(lengths, cur), Sum(lengths), x, d);
    assert WeightedPosition(lengths, cur, d)
           == Random.RandRange(SpanEnd(lengths, cur), SpanEnd(lengths, cur) + OtherSentences(lengths, cur), d)
              % Sum(lengths);
  }

  /** The arithmetic behind `WeightedReachesPosition`: the drawn range starts at
      `end` and holds `w` positions, all but the `total - w` positions just
      before `end`; a position x outside those is drawn by an offset below w,
      wrapping around total. */
  lemma WrapOffset(end: nat, w: nat, total: nat, x: nat, d: nat)
    requires total - w <= end <= total && w <= total && x < total
    requires !(end - (total - w) <= x < end)
    requires d == if x >= end then x - end else x + total - end
    ensures d < w
    ensures Random.RandRange(end, end + w, d) % total == x
  {
    Random.RandRangeReaches(end, end + w, end + d);
    ModWrap(end + d, total);
  }

  /** Different offsets into the drawn range give different positions: with
      `WeightedReachesPosition`, the offsets are in one-to-one correspondence with
      the other documents' sentences, so a document is drawn with
      probability proportional to its sentence count. */
  lemma WeightedPositionInjective(lengths: seq<nat>, cur: nat, d1: nat, d2: nat)
    requires AllPositive(lengths) && 2 <= |lengths| && cur < |lengths|
    requires d1 < OtherSentences(lengths, cur) && d2 < OtherSentences(lengths, cur)
    requires d1 != d2
    ensures WeightedPosition(lengths, cur, d1) != WeightedPosition(lengths, cur, d2)
  {
    OthersNonEmpty(lengths, cur);
    SpanInsideTotal(lengths, cur);
    var total := Sum(lengths);
    var e := SpanEnd(lengths, cur);
    var w := OtherSentences(lengths, cur);
    ModWrap(d1, w);
    ModWrap(d2, w);
    var y1 := Random.RandRange(e, e + w, d1);
    var y2 := Random.RandRange(e, e + w, d2);
    assert y1 == e + d1 && y2 == e + d2;
    assert w <= total && e <= total;
    ModWrap(y1, total);
    ModWrap(y2, total);
  }

  /** Every document other than the current one can be sampled. */
  lemma WeightedReachesDocument(lengths: seq<nat>, cur: nat, j: nat)
    requires AllPositive(lengths) && 2 <= |lengths| && cur < |lengths|
    requires j < |lengths| && j != cur
    ensures SpanStart(lengths, j) < Sum(lengths)
    ensures !InSpan(lengths, cur, SpanStart(lengths, j))
    ensures WeightedIndex(lengths, cur, OffsetOf(lengths, cur, SpanStart(lengths, j))) == j
  {
    var x := SpanStart(lengths, j);
    SpanInsideTotal(lengths, j);
    assert InSpan(lengths, j, x);
    if InSpan(lengths, cur, x) {
      SpansDisjoint(lengths, cur, j, x);
    }
    WeightedReachesPosition(lengths, cur, x);
    var r := WeightedIndex(lengths, cur, OffsetOf(lengths, cur, x));
    SpansDisjoint(lengths, r, j, x);
  }

  /** The document sampled in unweighted mode: (cur + randrange(1, n)) % n.
      It is never the current index. */
  function UniformIndex(n: nat, cur: nat, draw: nat): (r: nat)
    requires n >= 2
    ensures r < n && r != cur
  {
    var k := Random.RandRange(1, n, draw);
    var y := cur + k;
    if cur < n then
      ModWrap(y, n);
      y % n
    else
      y % n
  }

  /** Every index other than the current one can be sampled in unweighted mode. */
  lemma UniformReaches(n: nat, cur: nat, j: nat)
    requires n >= 2 && cur < n && j < n && j != cur
    ensures UniformIndex(n, cur, if j > cur then j - cur - 1 else j + n - cur - 1) == j
  {
    var d := if j > cur then j - cur - 1 else j + n - cur - 1;
    Random.RandRangeReaches(1, n, d + 1);
    ModWrap(cur + d + 1, n);
  }

  /** What the cached prefix sums say about the weighted draw's range: it
      starts at the end of the current document's span and covers the
      sentences of all other documents, so it is empty exactly when there is
      only one document. */
  lemma CachedRange(lengths: seq<nat>, cumsum: seq<nat>, cumsumMax: nat, cur: nat)
    requires AllPositive(lengths) && cur < |lengths|
    requires cumsum == PrefixSums(lengths) && cumsumMax == cumsum[|cumsum| - 1]
    ensures cumsum[cur] == SpanEnd(lengths, cur) && cumsumMax == Sum(lengths)
    ensures cumsumMax >= lengths[cur]
    ensures cumsum[cur] < cumsum[cur] + cumsumMax - lengths[cur] <==> |lengths| >= 2
  {
    PrefixSumsAt(lengths, |lengths| - 1);
    assert lengths[..|lengths|] == lengths;
    PrefixSumsAt(lengths, cur);
    SpanInsideTotal(lengths, cur);
    if |lengths| >= 2 {
      OthersNonEmpty(lengths, cur);
    } else {
      assert lengths[..1] == lengths;
    }
  }

  /** The cached computation of the weighted draw is the weighted index. */
  lemma CachedDrawIsWeightedIndex(lengths: seq<nat>, cumsum: seq<nat>, cumsumMax: nat, cur: nat, draw: nat)
    requires AllPositive(lengths) && 2 <= |lengths| && cur < |lengths|
    requires cumsum == PrefixSums(lengths) && cumsumMax == Sum(lengths) && cumsum[cur] == SpanEnd(lengths, cur)
    ensures cumsumMax > lengths[cur] && cumsumMax > 0
    ensures SearchRight(cumsum, Random.RandRange(cumsum[cur], cumsum[cur] + cumsumMax - lengths[cur], draw) % cumsumMax)
            == WeightedIndex(lengths, cur, draw)
  {
    OthersNonEmpty(lengths, cur);
  }

  /** The in-memory `DocumentDatabase`. */
  class DocumentDatabase {
    var documents: seq<Document>
    var docLengths: seq<nat>
    /** The cached `np.cumsum(doc_lengths)` (None until first computed). */
    var docCumsum: Option<seq<nat>>
    var cumsumMax: nat

    /** The lengths list parallels the documents, no document is empty, and
        the cache holds the prefix sums of a prefix of the lengths (the
        lengths only grow by appending, so a cache of the current length is
        current). */
    ghost predicate Valid()
      reads this
    {
      && |documents| == |docLengths|
      && (forall i :: 0 <= i < |documents| ==> docLengths[i] == |documents[i]| > 0)
      && (docCumsum.Some? ==>
            && |docCumsum.value| <= |docLengths|
            && docCumsum.value == PrefixSums(docLengths[..|docCumsum.value|])
            && (|docCumsum.value| > 0 ==> cumsumMax == docCumsum.value[|docCumsum.value| - 1]))
    }

    constructor ()
      ensures Valid()
      ensures documents == [] && docLengths == [] && docCumsum == None
    {
      documents := [];
      docLengths := [];
      docCumsum := None;
      cumsumMax := 0;
    }

    /** `__len__`: the number of documents. */
    function Length(): (n: nat)
      reads this
      requires Valid()
      ensures n == |documents|
    {
      |docLengths|
    }

    /** `add_document`: an empty document is ignored; otherwise it is appended
        with its sentence count, and everything before is kept. */
    method AddDocument(document: Document)
      requires Valid()
      modifies this`documents, this`docLengths
      ensures Valid()
      ensures document == [] ==> documents == old(documents) && docLengths == old(docLengths)
      ensures document != [] ==>
                && documents == old(documents) + [document]
                && docLengths == old(docLengths) + [|document|]
      ensures Length() == old(Length()) + (if document == [] then 0 else 1)
    {
      if document == [] {
        return;
      }
      ghost var oldLengths := docLengths;
      documents := documents + [document];
      docLengths := docLengths + [|document|];
      if docCumsum.Some? {
        assert docLengths[..|docCumsum.value|] == oldLengths[..|docCumsum.value|];
      }
    }

    /** `__getitem__`: the document at an index, IndexError past the end. */
    method GetItem(item: nat) returns (r: Result<Document>)
      requires Valid()
      ensures item < |documents| ==> r == Ok(documents[item])
      ensures item >= |documents| ==> r == Err(IndexError)
    {
      if item < |documents| {
        r := Ok(documents[item]);
      } else {
        r := Err(IndexError);
      }
    }

    /** `_precalculate_doc_weights`: fill the cache with the running sums of
        the sentence counts and remember the last one. On an empty store the
        source fails with IndexError when it reads the last running sum;
        `SampleDoc` models that case itself (it caches the empty running sums
        and returns IndexError), so this method is only called on a
        non-empty store. */
    method PrecalculateDocWeights()
      requires Valid() && |docLengths| > 0
      modifies this`docCumsum, this`cumsumMax
      ensures Valid()
      ensures docCumsum == Some(PrefixSums(docLengths)) && cumsumMax == Sum(docLengths)
    {
      var sums: seq<nat> := [];
      var running: nat := 0;
      var i := 0;
      while i < |docLengths|
        invariant 0 <= i <= |docLengths|
        invariant sums == PrefixSums(docLengths[..i])
        invariant running == Sum(docLengths[..i])
      {
        assert docLengths[..i + 1] == docLengths[..i] + [docLengths[i]];
        PrefixSumsSnoc(docLengths[..i], docLengths[i]);
        running := running + docLengths[i];
        sums := sums + [running];
        i := i + 1;
      }
      assert docLengths[..i] == docLengths;
      docCumsum := Some(sums);
      cumsumMax := sums[|sums| - 1];
    }

    /** The weighted branch of `sample_doc` once the cache is current: draw
        a sentence position in the range that starts after the current
        document and covers every other document's sentences, wrap it around
        the total, and return the document owning that position. */
    method WeightedSample(currentIdx: nat, draw: nat) returns (r: Result<Document>, sampledIdx: nat)
      requires Valid() && |docLengths| > 0
      requires docCumsum == Some(PrefixSums(docLengths))
      ensures r.Ok? <==> 2 <= |documents| && currentIdx < |documents|
      ensures r.Ok? ==> sampledIdx == WeightedIndex(docLengths, currentIdx, draw) && r.value == documents[sampledIdx]
      ensures r.Err? ==> r.error == if currentIdx >= |documents| then IndexError else ValueError
    {
      var cumsum := docCumsum.value;
      if currentIdx >= |cumsum| {
        return Err(IndexError), 0;
      }
      var randStart := cumsum[currentIdx];
      var randEnd := randStart + cumsumMax - docLengths[currentIdx];
      assert AllPositive(docLengths);
      CachedRange(docLengths, cumsum, cumsumMax, currentIdx);
      if randStart >= randEnd {
        // a single document: randrange over an empty range
        return Err(ValueError), 0;
      }
      CachedDrawIsWeightedIndex(docLengths, cumsum, cumsumMax, currentIdx, draw);
      var sentenceIndex := Random.RandRange(randStart, randEnd, draw) % cumsumMax;
      sampledIdx := SearchRight(cumsum, sentenceIndex);
      r := Ok(documents[sampledIdx]);
    }

    /** `sample_doc`: a document other than `currentIdx`, with its index.
        Weighted mode rebuilds the cache when the document count changed,
        draws a sentence position outside the current document and returns
        its owner; unweighted mode steps 1 .. n-1 places from `currentIdx`. */
    method SampleDoc(currentIdx: nat, sentenceWeighted: bool, draw: nat)
      returns (r: Result<Document>, sampledIdx: nat)
      requires Valid()
      modifies this`docCumsum, this`cumsumMax
      ensures Valid()
      ensures documents == old(documents) && docLengths == old(docLengths)
      ensures sentenceWeighted && |documents| > 0 ==> docCumsum == Some(PrefixSums(docLengths))
      ensures !sentenceWeighted ==> docCumsum == old(docCumsum) && cumsumMax == old(cumsumMax)
      ensures r.Ok? ==> sampledIdx < |documents| && sampledIdx != currentIdx && r.value == documents[sampledIdx]
      ensures sentenceWeighted ==> (r.Ok? <==> 2 <= |documents| && currentIdx < |documents|)
      ensures !sentenceWeighted ==> (r.Ok? <==> 2 <= |documents|)
      ensures r.Ok? && sentenceWeighted ==> sampledIdx == WeightedIndex(docLengths, currentIdx, draw)
      ensures r.Ok? && !sentenceWeighted ==> sampledIdx == UniformIndex(|documents|, currentIdx, draw)
      ensures r.Err? ==> r.error == if sentenceWeighted && currentIdx >= |documents| then IndexError else ValueError
    {
      sampledIdx := 0;
      if sentenceWeighted {
        if |docLengths| == 0 {
          // np.cumsum of no counts is empty (cached or freshly computed), and
          // reading an entry of it fails
          docCumsum := Some([]);
          return Err(IndexError), 0;
        }
        if docCumsum.None? || |docCumsum.value| != |docLengths| {
          PrecalculateDocWeights();
        }
        assert docLengths[..|docLengths|] == docLengths;
        r, sampledIdx := WeightedSample(currentIdx, draw);
        if r.Err? {
          return;
        }
      } else {
        if |docLengths| < 2 {
          return Err(ValueError), 0;
        }
        sampledIdx := (currentIdx + Random.RandRange(1, |docLengths|, draw)) % |docLengths|;
        assert sampledIdx == UniformIndex(|documents|, currentIdx, draw);
      }
      r := Ok(documents[sampledIdx]);
    }
  }
}
