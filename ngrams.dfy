/** The n-gram annotation of an instance: every span of 2 to 7 tokens that
    the n-gram dictionary knows is recorded, and a bounded random subset of
    those matches is kept. */
module Ngrams {
  import opened Corpus
  import Random

  const MinNgramLength: nat := 2
  const MaxNgramLength: nat := 7

  /** The n-gram dictionary: a token tuple to its id. */
  type NgramDict = map<seq<Token>, int>

  /** `[ngram_index, q, p, character_segment]`. */
  datatype NgramMatch = NgramMatch(id: int, position: nat, length: nat, tuple: seq<Token>)

  /** The span of `len` tokens starting at `q` is a dictionary entry. */
  predicate InDict(tokens: seq<Token>, dict: NgramDict, q: nat, len: nat)
    requires q + len <= |tokens|
  {
    tokens[q..q + len] in dict
  }

  /** The record the scan makes for the span of `len` tokens at `q`. */
  function MatchAt(tokens: seq<Token>, dict: NgramDict, q: nat, len: nat): NgramMatch
    requires q + len <= |tokens| && InDict(tokens, dict, q, len)
  {
    NgramMatch(dict[tokens[q..q + len]], q, len, tokens[q..q + len])
  }

  /** A match names a span of 2 to 7 tokens inside the sequence, carries that
      span as its tuple, and the dictionary maps the tuple to its id. */
  predicate ValidMatch(m: NgramMatch, tokens: seq<Token>, dict: NgramDict)
  {
    && MinNgramLength <= m.length <= MaxNgramLength
    && m.position + m.length <= |tokens|
    && m.tuple == tokens[m.position..m.position + m.length]
    && m.tuple in dict
    && dict[m.tuple] == m.id
  }

  /** The scan order: by length, then by position. */
  predicate ScanBefore(a: NgramMatch, b: NgramMatch)
  {
    a.length < b.length || (a.length == b.length && a.position < b.position)
  }

  predicate InScanOrder(ms: seq<NgramMatch>)
  {
    forall i, j :: 0 <= i < j < |ms| ==> ScanBefore(ms[i], ms[j])
  }

  /** The double loop over lengths 2..7 and start positions: it records
      exactly the spans the dictionary knows, each once, in scan order. */
  method ScanNgrams(tokens: seq<Token>, dict: NgramDict) returns (matches: seq<NgramMatch>)
    ensures forall k :: 0 <= k < |matches| ==> ValidMatch(matches[k], tokens, dict)
    ensures forall len: nat, q: nat ::
              (MinNgramLength <= len <= MaxNgramLength && q + len <= |tokens| && InDict(tokens, dict, q, len))
              ==> MatchAt(tokens, dict, q, len) in matches
    ensures InScanOrder(matches)
  {
    matches := [];
    var p := MinNgramLength;
    while p <= MaxNgramLength
      invariant MinNgramLength <= p <= MaxNgramLength + 1
      invariant forall k :: 0 <= k < |matches| ==> ValidMatch(matches[k], tokens, dict) && matches[k].length < p
      invariant forall len: nat, q: nat ::
                  (MinNgramLength <= len < p && q + len <= |tokens| && InDict(tokens, dict, q, len))
                  ==> MatchAt(tokens, dict, q, len) in matches
      invariant InScanOrder(matches)
    {
      var q := 0;
      while q + p <= |tokens|
        invariant q + p <= |tokens| + 1 || q == 0
        invariant forall k :: 0 <= k < |matches| ==>
                    && ValidMatch(matches[k], tokens, dict)
                    && (matches[k].length < p || (matches[k].length == p && matches[k].position < q))
        invariant forall len: nat, q': nat ::
                    (MinNgramLength <= len < p && q' + len <= |tokens| && InDict(tokens, dict, q', len))
                    ==> MatchAt(tokens, dict, q', len) in matches
        invariant forall q': nat ::
                    (q' < q && q' + p <= |tokens| && InDict(tokens, dict, q', p))
                    ==> MatchAt(tokens, dict, q', p) in matches
        invariant InScanOrder(matches)
        decreases |tokens| - q
      {
        var segment := tokens[q..q + p];
        if segment in dict {
          var m := NgramMatch(dict[segment], q, p, segment);
          assert m == MatchAt(tokens, dict, q, p);
          matches := matches + [m];
        }
        q := q + 1;
      }
      p := p + 1;
    }
  }

  /** `matches` is the scan of `tokens`: every dictionary span of 2 to 7
      tokens, each once, in scan order. */
  ghost predicate IsScan(matches: seq<NgramMatch>, tokens: seq<Token>, dict: NgramDict)
  {
    && (forall k :: 0 <= k < |matches| ==> ValidMatch(matches[k], tokens, dict))
    && (forall len: nat, q: nat ::
          (MinNgramLength <= len <= MaxNgramLength && q + len <= |tokens| && InDict(tokens, dict, q, len))
          ==> MatchAt(tokens, dict, q, len) in matches)
    && InScanOrder(matches)
  }

  /** The length of `l[:m]` for a list of length n: a negative m counts from
      the end of the list. */
  function PrefixLength(n: nat, m: int): (k: nat)
    ensures k <= n
  {
    if 0 <= m then (if n < m then n else m)
    else if n + m < 0 then 0 else n + m
  }

  /** `shuffle(ngram_matches)` followed, when there are more than
      `max_ngram_in_seq` matches, by `ngram_matches[:max_ngram_in_seq]`. */
  method SelectNgrams(matches: seq<NgramMatch>, maxNgramInSeq: int, draw: Random.Stream<nat>)
    returns (selected: seq<NgramMatch>)
    ensures |selected| == PrefixLength(|matches|, maxNgramInSeq)
    ensures multiset(selected) <= multiset(matches)
  {
    var shuffled;
    ghost var perm;
    shuffled, perm := Random.Shuffle(matches, draw);
    selected := shuffled;
    if |selected| > maxNgramInSeq {
      var keep := PrefixLength(|shuffled|, maxNgramInSeq);
      selected := selected[..keep];
      assert shuffled == selected + shuffled[keep..];
    }
  }

  /** No two matches name the same span. */
  predicate DistinctSpans(ms: seq<NgramMatch>)
  {
    forall i, j :: 0 <= i < j < |ms| ==> (ms[i].position, ms[i].length) != (ms[j].position, ms[j].length)
  }

  /** A subset of the scan keeps its matches valid and its spans distinct. */
  lemma SelectionKeepsScan(matches: seq<NgramMatch>, selected: seq<NgramMatch>, tokens: seq<Token>, dict: NgramDict)
    requires forall k :: 0 <= k < |matches| ==> ValidMatch(matches[k], tokens, dict)
    requires InScanOrder(matches)
    requires multiset(selected) <= multiset(matches)
    ensures forall k :: 0 <= k < |selected| ==> ValidMatch(selected[k], tokens, dict)
    ensures DistinctSpans(selected)
  {
    forall k | 0 <= k < |selected| ensures selected[k] in matches {
      assert selected[k] in multiset(selected);
    }
    forall x ensures multiset(selected)[x] <= 1 {
      ScanHoldsOnce(matches, x);
    }
    NoRepeats(selected);
  }

  /** A sequence in strict scan order holds each record at most once. */
  lemma {:induction false} ScanHoldsOnce(ms: seq<NgramMatch>, m: NgramMatch)
    requires InScanOrder(ms)
    ensures multiset(ms)[m] <= 1
  {
    if ms != [] {
      ScanHoldsOnce(ms[1..], m);
      assert ms == [ms[0]] + ms[1..];
      if ms[0] == m {
        assert m !in ms[1..];
      }
    }
  }

  /** A sequence holding each record at most once has no repeated entry. */
  lemma {:induction false} NoRepeats(s: seq<NgramMatch>)
    requires forall x :: multiset(s)[x] <= 1
    ensures forall i, j :: 0 <= i < j < |s| ==> s[i] != s[j]
  {
    if s != [] {
      assert s == [s[0]] + s[1..];
      assert multiset(s)[s[0]] == multiset([s[0]])[s[0]] + multiset(s[1..])[s[0]];
      assert multiset(s[1..])[s[0]] == 0;
      forall x ensures multiset(s[1..])[x] <= 1 {
        assert multiset(s)[x] == multiset([s[0]])[x] + multiset(s[1..])[x];
      }
      NoRepeats(s[1..]);
      forall i, j | 0 <= i < j < |s| ensures s[i] != s[j] {
        if i > 0 {
          assert s[i] == s[1..][i - 1] && s[j] == s[1..][j - 1];
        } else {
          assert s[j] in s[1..];
        }
      }
    }
  }

  /** The matches spelled out by the four parallel lists of an instance. */
  function MatchList(ids: seq<int>, positions: seq<nat>, lengths: seq<nat>, tuples: seq<seq<Token>>)
    : (ms: seq<NgramMatch>)
    requires |positions| == |ids| && |lengths| == |ids| && |tuples| == |ids|
    ensures |ms| == |ids|
    ensures forall k :: 0 <= k < |ids| ==> ms[k] == NgramMatch(ids[k], positions[k], lengths[k], tuples[k])
  {
    seq(|ids|, k requires 0 <= k < |ids| => NgramMatch(ids[k], positions[k], lengths[k], tuples[k]))
  }

  function NgramIds(ms: seq<NgramMatch>): (ids: seq<int>)
    ensures |ids| == |ms| && forall k :: 0 <= k < |ms| ==> ids[k] == ms[k].id
  {
    seq(|ms|, k requires 0 <= k < |ms| => ms[k].id)
  }

  function NgramPositions(ms: seq<NgramMatch>): (ps: seq<nat>)
    ensures |ps| == |ms| && forall k :: 0 <= k < |ms| ==> ps[k] == ms[k].position
  {
    seq(|ms|, k requires 0 <= k < |ms| => ms[k].position)
  }

  function NgramLengths(ms: seq<NgramMatch>): (ls: seq<nat>)
    ensures |ls| == |ms| && forall k :: 0 <= k < |ms| ==> ls[k] == ms[k].length
  {
    seq(|ms|, k requires 0 <= k < |ms| => ms[k].length)
  }

  function NgramTuples(ms: seq<NgramMatch>): (ts: seq<seq<Token>>)
    ensures |ts| == |ms| && forall k :: 0 <= k < |ms| ==> ts[k] == ms[k].tuple
  {
    seq(|ms|, k requires 0 <= k < |ms| => ms[k].tuple)
  }

  /** `ngram_seg_ids`: 0 for an n-gram starting in `[CLS] A [SEP]`, 1 after. */
  function NgramSegmentIds(positions: seq<nat>, lenA: nat): (ids: seq<nat>)
    ensures |ids| == |positions|
    ensures forall k :: 0 <= k < |positions| ==> (ids[k] == 0 <==> positions[k] < lenA + 2) && ids[k] <= 1
  {
    seq(|positions|, k requires 0 <= k < |positions| => if positions[k] < lenA + 2 then 0 else 1)
  }
}
