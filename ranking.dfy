/**
 * Ranking of stored passages against a question (DocumentService): the
 * keyword fallback, the filter / sort / limit shape shared with the
 * embedding ranking, and the stable descending sort of Stream.sorted.
 *
 * Scores are exact reals. The keyword score is the exact ratio of matched
 * to extracted keywords; the cosine similarity of two embeddings is an
 * abstract function that the guard cases of the source wrap.
 */
module Ranking {
  import opened Dto
  import opened JavaStrings

  // ---------------------------------------------------------------------
  // Keywords
  // ---------------------------------------------------------------------

  /** The words extractKeywords never keeps. */
  const StopWords: set<string> := {
    "a", "an", "the", "is", "are", "was", "were", "be", "been", "being", "in", "on",
    "at", "to", "for", "with", "by", "about", "like", "through", "over", "before", "after", "between",
    "under", "above", "of", "and", "or", "not", "no", "but", "pay", "payment", "paying"}

  /**
   * extractKeywords: the pieces of the text between runs of non-word
   * characters that are longer than one character and not stop words.
   */
  function ExtractKeywords(text: string): (kws: set<string>)
    ensures forall w :: w in kws ==> |w| > 1 && w !in StopWords
  {
    set w | w in Split(text, Runs(NonWord, 1)) && |w| > 1 && w !in StopWords
  }

  /** Keywords are words of the text: they occur in it and consist of word characters only. */
  lemma KeywordsAreWords(text: string, w: string)
    requires w in ExtractKeywords(text)
    ensures Contains(text, w)
    ensures forall k :: 0 <= k < |w| ==> IsWordChar(w[k])
  {
    SplitRuns(NonWord, text, w);
  }

  /** Every word of the text that is long enough and not a stop word is a keyword. */
  lemma WordsAreKeywords(text: string, w: string)
    requires w in Split(text, Runs(NonWord, 1)) && |w| > 1 && w !in StopWords
    ensures w in ExtractKeywords(text)
  {
  }

  /** The keywords of the (lower-cased) question that the lower-cased passage contains. */
  function Matched(kws: set<string>, chunk: TextChunk): (m: set<string>)
    ensures m <= kws
  {
    set w | w in kws && Contains(ToLower(chunk.text), w)
  }

  /**
   * The keyword score of rankChunksByKeywords: matched keywords over all
   * keywords, 0 when nothing matches.
   */
  function KeywordScore(kws: set<string>, chunk: TextChunk): real
  {
    var m := |Matched(kws, chunk)|;
    if m > 0 then m as real / |kws| as real else 0.0
  }

  /** The keyword score lies in [0, 1] and is positive exactly when a keyword occurs in the passage. */
  lemma KeywordScoreBounds(kws: set<string>, chunk: TextChunk)
    ensures 0.0 <= KeywordScore(kws, chunk) <= 1.0
    ensures KeywordScore(kws, chunk) > 0.0 <==> exists w :: w in kws && Contains(ToLower(chunk.text), w)
    ensures KeywordScore(kws, chunk) == 1.0 <==> |kws| > 0 && Matched(kws, chunk) == kws
  {
    var m := Matched(kws, chunk);
    SubsetCard(m, kws);
    if exists w :: w in kws && Contains(ToLower(chunk.text), w) {
      var w :| w in kws && Contains(ToLower(chunk.text), w);
      assert w in m;
    }
    if |m| == |kws| && |kws| > 0 {
      if m != kws {
        var w :| w in kws && w !in m;
        SubsetCard(m, kws - {w});
      }
    }
  }

  // ---------------------------------------------------------------------
  // The filter / sort / limit pipeline
  // ---------------------------------------------------------------------

  /** map(chunk -> new RankedChunkDto(chunk, score(chunk))). */
  function Scored(chunks: seq<TextChunk>, score: TextChunk -> real): (rs: seq<RankedChunk>)
    ensures |rs| == |chunks|
    ensures forall k :: 0 <= k < |rs| ==> rs[k] == RankedChunk(chunks[k], score(chunks[k]))
  {
    seq(|chunks|, k requires 0 <= k < |chunks| => RankedChunk(chunks[k], score(chunks[k])))
  }

  /** filter(rankedChunk -> keep(rankedChunk.getScore())). */
  function Keep(rs: seq<RankedChunk>, keep: real -> bool): (r: seq<RankedChunk>)
    ensures |r| <= |rs|
    decreases |rs|
  {
    if |rs| == 0 then []
    else if keep(Last(rs).score) then Keep(rs[..|rs| - 1], keep) + [Last(rs)]
    else Keep(rs[..|rs| - 1], keep)
  }

  /** The kept entries are exactly the entries whose score passes, in their order. */
  lemma {:induction false} KeepMembers(rs: seq<RankedChunk>, keep: real -> bool)
    ensures forall x :: x in Keep(rs, keep) <==> x in rs && keep(x.score)
    decreases |rs|
  {
    if |rs| > 0 {
      KeepMembers(rs[..|rs| - 1], keep);
      assert rs == rs[..|rs| - 1] + [Last(rs)];
    }
  }

  /** Descending by score: Comparator.comparing(getScore).reversed(). */
  predicate Descending(s: seq<RankedChunk>) {
    forall i, j :: 0 <= i < j < |s| ==> s[i].score >= s[j].score
  }

  /** Places x after every entry whose score is at least its own. */
  function Insert(s: seq<RankedChunk>, x: RankedChunk): (r: seq<RankedChunk>)
    ensures |r| == |s| + 1
    decreases |s|
  {
    if |s| == 0 || Last(s).score >= x.score then s + [x]
    else Insert(s[..|s| - 1], x) + [Last(s)]
  }

  /**
   * Stream.sorted with the descending comparator. The sort is stable, so
   * its result is determined by the input; insertion sort computes it.
   */
  function SortDesc(rs: seq<RankedChunk>): (r: seq<RankedChunk>)
    ensures |r| == |rs|
    decreases |rs|
  {
    if |rs| == 0 then [] else Insert(SortDesc(rs[..|rs| - 1]), Last(rs))
  }

  lemma {:induction false} InsertPermutes(s: seq<RankedChunk>, x: RankedChunk)
    ensures multiset(Insert(s, x)) == multiset(s) + multiset{x}
    decreases |s|
  {
    if |s| > 0 && Last(s).score < x.score {
      InsertPermutes(s[..|s| - 1], x);
      assert s == s[..|s| - 1] + [Last(s)];
    }
  }

  lemma {:induction false} InsertKeepsDescending(s: seq<RankedChunk>, x: RankedChunk)
    requires Descending(s)
    ensures Descending(Insert(s, x))
    decreases |s|
  {
    if |s| > 0 && Last(s).score < x.score {
      var init := s[..|s| - 1];
      InsertKeepsDescending(init, x);
      InsertPermutes(init, x);
      var r := Insert(init, x);
      forall k | 0 <= k < |r| ensures r[k].score >= Last(s).score {
        assert r[k] in multiset(r);
        if r[k] != x {
          assert r[k] in multiset(init);
          var j :| 0 <= j < |init| && init[j] == r[k];
        }
      }
    }
  }

  /** The sort returns a permutation of its input. */
  lemma {:induction false} SortPermutes(rs: seq<RankedChunk>)
    ensures multiset(SortDesc(rs)) == multiset(rs)
    decreases |rs|
  {
    if |rs| > 0 {
      SortPermutes(rs[..|rs| - 1]);
      InsertPermutes(SortDesc(rs[..|rs| - 1]), Last(rs));
      assert rs == rs[..|rs| - 1] + [Last(rs)];
    }
  }

  /** The sort returns its input in descending order of score. */
  lemma {:induction false} SortDescending(rs: seq<RankedChunk>)
    ensures Descending(SortDesc(rs))
    decreases |rs|
  {
    if |rs| > 0 {
      SortDescending(rs[..|rs| - 1]);
      InsertKeepsDescending(SortDesc(rs[..|rs| - 1]), Last(rs));
    }
  }

  /** The entries with exactly score v, in order. */
  function WithScore(s: seq<RankedChunk>, v: real): seq<RankedChunk>
    decreases |s|
  {
    if |s| == 0 then []
    else if Last(s).score == v then WithScore(s[..|s| - 1], v) + [Last(s)]
    else WithScore(s[..|s| - 1], v)
  }

  lemma {:induction false} InsertStable(s: seq<RankedChunk>, x: RankedChunk, v: real)
    ensures WithScore(Insert(s, x), v) == WithScore(s, v) + (if x.score == v then [x] else [])
    decreases |s|
  {
    if |s| == 0 || Last(s).score >= x.score {
      assert (s + [x])[..|s|] == s;
      if x.score != v {
        assert WithScore(s + [x], v) == WithScore(s, v) + [];
      }
    } else {
      var init, r := s[..|s| - 1], Insert(s[..|s| - 1], x);
      InsertStable(init, x, v);
      assert (r + [Last(s)])[..|r|] == r;
      if Last(s).score == v {
        assert x.score != v;
        assert WithScore(r, v) + [Last(s)] == WithScore(init, v) + [] + [Last(s)];
      } else {
        assert WithScore(s, v) == WithScore(init, v);
      }
    }
  }

  /** The sort is stable: entries with equal scores keep their relative order. */
  lemma {:induction false} SortStable(rs: seq<RankedChunk>, v: real)
    ensures WithScore(SortDesc(rs), v) == WithScore(rs, v)
    decreases |rs|
  {
    if |rs| > 0 {
      var init, x := rs[..|rs| - 1], Last(rs);
      SortStable(init, v);
      InsertStable(SortDesc(init), x, v);
      if x.score != v {
        assert WithScore(SortDesc(init), v) + [] == WithScore(init, v);
      }
    }
  }

  /** limit(n) for n >= 0. */
  function Take(s: seq<RankedChunk>, n: nat): (r: seq<RankedChunk>)
    ensures |r| == if n < |s| then n else |s|
    ensures r == s[..|r|]
  {
    if n < |s| then s[..n] else s
  }

  /** filter, sorted descending, limit: a negative limit makes Stream.limit throw. */
  function Pipeline(rs: seq<RankedChunk>, keep: real -> bool, maxResults: int): (r: Result<seq<RankedChunk>>)
    ensures maxResults < 0 <==> r.Err?
    ensures r.Err? ==> r.error == IllegalArgument(IntToString(maxResults))
  {
    if maxResults < 0 then Err(IllegalArgument(IntToString(maxResults)))
    else Ok(Take(SortDesc(Keep(rs, keep)), maxResults))
  }

  /** Every entry of a filtered, sorted and limited list comes from the scored list and passes the filter. */
  lemma PipelineFrom(chunks: seq<TextChunk>, rs: seq<RankedChunk>, keep: real -> bool, maxResults: int)
    requires Pipeline(rs, keep, maxResults).Ok?
    requires |rs| == |chunks| && forall k :: 0 <= k < |rs| ==> rs[k].chunk == chunks[k]
    ensures var r := Pipeline(rs, keep, maxResults).value;
      && maxResults >= 0 && |r| <= maxResults && Descending(r)
      && forall x :: x in r ==> x.chunk in chunks && keep(x.score)
  {
    PipelineTopK(rs, keep, maxResults);
    var r := Pipeline(rs, keep, maxResults).value;
    forall x | x in r ensures x.chunk in chunks {
      var k :| 0 <= k < |rs| && rs[k] == x;
    }
  }

  /** a is an initial part of b. */
  predicate IsPrefix(a: seq<RankedChunk>, b: seq<RankedChunk>) {
    |a| <= |b| && a == b[..|a|]
  }

  /** A prefix of a list keeps the order of the entries with equal scores. */
  lemma {:induction false} WithScorePrefix(s: seq<RankedChunk>, n: nat, v: real)
    requires n <= |s|
    ensures IsPrefix(WithScore(s[..n], v), WithScore(s, v))
    decreases |s|
  {
    if n < |s| {
      var init := s[..|s| - 1];
      assert init[..n] == s[..n];
      WithScorePrefix(init, n, v);
    } else {
      assert s[..n] == s;
    }
  }

  /** The best n entries of a list: sort, then limit. */
  function Top(kept: seq<RankedChunk>, n: nat): seq<RankedChunk>
  {
    Take(SortDesc(kept), n)
  }

  /** The best n are a descending selection of the list. */
  lemma TopSorted(kept: seq<RankedChunk>, n: nat)
    ensures Descending(Top(kept, n))
    ensures forall x :: x in Top(kept, n) ==> x in kept
  {
    var sorted := SortDesc(kept);
    SortPermutes(kept);
    SortDescending(kept);
    forall x | x in Top(kept, n) ensures x in kept {
      assert x in multiset(sorted);
    }
  }

  /** No entry left out of the best n scores higher than one taken. */
  lemma TopIsBest(kept: seq<RankedChunk>, n: nat, x: RankedChunk, y: RankedChunk)
    requires x in kept && x !in Top(kept, n) && y in Top(kept, n)
    ensures y.score >= x.score
  {
    var sorted := SortDesc(kept);
    SortPermutes(kept);
    SortDescending(kept);
    assert x in multiset(sorted);
    var j :| 0 <= j < |sorted| && sorted[j] == x;
    var i :| 0 <= i < |Top(kept, n)| && Top(kept, n)[i] == y;
    assert sorted[i] == y;
  }

  /** Among the best n, entries with equal scores come in their input order. */
  lemma TopTies(kept: seq<RankedChunk>, n: nat, v: real)
    ensures IsPrefix(WithScore(Top(kept, n), v), WithScore(kept, v))
  {
    var sorted := SortDesc(kept);
    SortStable(kept, v);
    WithScorePrefix(sorted, |Top(kept, n)|, v);
  }

  /**
   * What the pipeline promises: the result has min(limit, kept) entries, all
   * passing the filter, in descending order, with no passing entry left out
   * that scores higher than one taken, and ties in input order.
   */
  lemma PipelineTopK(rs: seq<RankedChunk>, keep: real -> bool, maxResults: nat)
    ensures var kept := Keep(rs, keep);
      var r := Pipeline(rs, keep, maxResults).value;
      && r == Top(kept, maxResults)
      && |r| == (if maxResults < |kept| then maxResults else |kept|)
      && Descending(r)
      && (forall x :: x in r ==> x in rs && keep(x.score))
      && (forall x, y :: x in kept && x !in r && y in r ==> y.score >= x.score)
      && (forall v :: IsPrefix(WithScore(r, v), WithScore(kept, v)))
  {
    var kept := Keep(rs, keep);
    TopSorted(kept, maxResults);
    KeepMembers(rs, keep);
    forall x, y | x in kept && x !in Top(kept, maxResults) && y in Top(kept, maxResults) ensures y.score >= x.score {
      TopIsBest(kept, maxResults, x, y);
    }
    forall v ensures IsPrefix(WithScore(Top(kept, maxResults), v), WithScore(kept, v)) {
      TopTies(kept, maxResults, v);
    }
  }

  /** Nothing passes a filter that no score meets. */
  lemma {:induction false} KeepNone(rs: seq<RankedChunk>, keep: real -> bool)
    requires forall k :: 0 <= k < |rs| ==> !keep(rs[k].score)
    ensures Keep(rs, keep) == []
    decreases |rs|
  {
    if |rs| > 0 {
      KeepNone(rs[..|rs| - 1], keep);
    }
  }

  // ---------------------------------------------------------------------
  // The two rankings
  // ---------------------------------------------------------------------

  /** Each passage with its keyword score. */
  function KeywordScores(chunks: seq<TextChunk>, kws: set<string>): (rs: seq<RankedChunk>)
    ensures |rs| == |chunks|
    ensures forall k :: 0 <= k < |rs| ==> rs[k] == RankedChunk(chunks[k], KeywordScore(kws, chunks[k]))
  {
    Scored(chunks, (c: TextChunk) => KeywordScore(kws, c))
  }

  /** The keyword filter: score > 0. */
  predicate Positive(s: real) { s > 0.0 }

  /** rankChunksByKeywords: keyword scores, positive ones only, best first, at most maxResults. */
  function RankChunksByKeywords(chunks: seq<TextChunk>, question: string, maxResults: int): (r: Result<seq<RankedChunk>>)
    ensures r.Err? <==> maxResults < 0
    ensures r.Ok? ==> |r.value| <= maxResults && Descending(r.value)
    ensures r.Ok? ==> forall x :: x in r.value ==> x.chunk in chunks && x.score > 0.0
  {
    var kws := ExtractKeywords(ToLower(question));
    var rs := KeywordScores(chunks, kws);
    if maxResults < 0 then Pipeline(rs, Positive, maxResults)
    else
      PipelineFrom(chunks, rs, Positive, maxResults);
      Pipeline(rs, Positive, maxResults)
  }

  /** Every keyword-ranked passage contains a keyword of the question and carries its keyword score. */
  lemma KeywordResults(chunks: seq<TextChunk>, question: string, maxResults: nat, x: RankedChunk)
    requires x in RankChunksByKeywords(chunks, question, maxResults).value
    ensures var kws := ExtractKeywords(ToLower(question));
      && x.chunk in chunks
      && x.score == KeywordScore(kws, x.chunk) > 0.0
      && exists w :: w in kws && Contains(ToLower(x.chunk.text), w)
  {
    var kws := ExtractKeywords(ToLower(question));
    var rs := KeywordScores(chunks, kws);
    PipelineTopK(rs, Positive, maxResults);
    var k :| 0 <= k < |rs| && rs[k] == x;
    KeywordScoreBounds(kws, x.chunk);
  }

  /** A question without keywords ranks nothing. */
  lemma NoKeywordsNoResults(chunks: seq<TextChunk>, question: string, maxResults: nat)
    requires ExtractKeywords(ToLower(question)) == {}
    ensures RankChunksByKeywords(chunks, question, maxResults) == Ok([])
  {
    var kws := ExtractKeywords(ToLower(question));
    var rs := KeywordScores(chunks, kws);
    forall k | 0 <= k < |rs| ensures rs[k].score == 0.0 {
      KeywordScoreBounds(kws, chunks[k]);
    }
    KeepNone(rs, Positive);
    assert Top(Keep(rs, Positive), maxResults) == [];
  }

  /**
   * calculateCosineSimilarityOptimize, up to floating point: 0 for a
   * missing vector, vectors of different lengths or empty vectors,
   * otherwise the similarity the abstract `cosine` computes.
   */
  function Cosine(a: Option<Vector>, b: Option<Vector>, cosine: (Vector, Vector) -> real): (r: real)
    ensures (a.None? || b.None? || |a.value| != |b.value| || |a.value| == 0) ==> r == 0.0
  {
    if a.None? || b.None? || |a.value| != |b.value| || |a.value| == 0 then 0.0
    else cosine(a.value, b.value)
  }

  /** Each passage with its similarity to the question's embedding. */
  function Similarities(chunks: seq<TextChunk>, query: Option<Vector>, cosine: (Vector, Vector) -> real): (rs: seq<RankedChunk>)
    ensures |rs| == |chunks|
    ensures forall k :: 0 <= k < |rs| ==> rs[k] == RankedChunk(chunks[k], Cosine(chunks[k].embedding, query, cosine))
  {
    Scored(chunks, (c: TextChunk) => Cosine(c.embedding, query, cosine))
  }

  /** The relevance filter: score >= minScore. */
  function AtLeast(minScore: real): real -> bool
  {
    s => s >= minScore
  }

  /** rankChunksByRelevance: similarity to the question's embedding, at least the threshold, best first, at most maxResults. */
  function RankChunksByRelevance(chunks: seq<TextChunk>, query: Option<Vector>, maxResults: int,
                                 minScore: real, cosine: (Vector, Vector) -> real): (r: Result<seq<RankedChunk>>)
    ensures r.Err? <==> maxResults < 0
    ensures r.Ok? ==> |r.value| <= maxResults && Descending(r.value)
    ensures r.Ok? ==> forall x :: x in r.value ==> x.chunk in chunks && x.score >= minScore
  {
    var rs := Similarities(chunks, query, cosine);
    if maxResults < 0 then Pipeline(rs, AtLeast(minScore), maxResults)
    else
      PipelineFrom(chunks, rs, AtLeast(minScore), maxResults);
      Pipeline(rs, AtLeast(minScore), maxResults)
  }

  /** A passage stored without an embedding scores 0, so it is ranked only when the threshold is at most 0. */
  lemma MissingEmbeddingRanked(chunks: seq<TextChunk>, query: Option<Vector>, maxResults: nat,
                               minScore: real, cosine: (Vector, Vector) -> real, c: TextChunk)
    requires c in chunks && c.embedding.None?
    ensures RankedChunk(c, 0.0) in Keep(Similarities(chunks, query, cosine), AtLeast(minScore))
            <==> minScore <= 0.0
  {
    var rs := Similarities(chunks, query, cosine);
    KeepMembers(rs, AtLeast(minScore));
    var k :| 0 <= k < |chunks| && chunks[k] == c;
    assert rs[k] == RankedChunk(c, 0.0);
  }
}
