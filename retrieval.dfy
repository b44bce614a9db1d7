/**
 * Answering a question over stored documents (DocumentService.queryDocuments):
 * the question is expanded with synonyms, the passages of the requested
 * documents are gathered, ranked by embedding similarity (falling back to
 * keywords), thinned out for diversity and written into the context the
 * language model is prompted with.
 */
module Retrieval {
  import opened Dto
  import opened JavaStrings
  import opened Embedding
  import opened Ranking
  import opened Diversity
  import opened Context

  // ---------------------------------------------------------------------
  // enhanceQuestion
  // ---------------------------------------------------------------------

  /** The six String.replace calls of enhanceQuestion, in order. */
  function Expand(q: string): string
  {
    var s1 := ReplaceLiteral(q, "who is", "who is information about person details");
    var s2 := ReplaceLiteral(s1, "what is", "what is information about details");
    var s3 := ReplaceLiteral(s2, "when", "when date time");
    var s4 := ReplaceLiteral(s3, "where", "where location place");
    var s5 := ReplaceLiteral(s4, "how much", "how much amount cost price value");
    ReplaceLiteral(s5, "salary", "salary income compensation")
  }

  /** enhanceQuestion: the expanded lower-case question, a space, then the question as asked. */
  function EnhanceQuestion(question: string): (r: string)
    ensures EndsWith(r, " " + question)
  {
    var r := Expand(ToLower(question)) + " " + question;
    assert r[|r| - |" " + question|..] == " " + question;
    r
  }

  /** A replaced target leaves its replacement in the text. */
  lemma {:induction false} ReplacePresent(s: string, target: string, repl: string)
    requires |target| > 0 && Contains(s, target)
    ensures Contains(ReplaceLiteral(s, target, repl), repl)
    decreases |s|
  {
    var w := ContainsWitness(s, target);
    if s[..|target|] == target {
      ContainsMiddle("", repl, ReplaceLiteral(s[|target|..], target, repl));
      assert "" + repl + ReplaceLiteral(s[|target|..], target, repl) == ReplaceLiteral(s, target, repl);
    } else {
      assert !StartsWith(s, target);
      ReplacePresent(s[1..], target, repl);
      ContainsWithin([s[0]], ReplaceLiteral(s[1..], target, repl), "", repl);
      assert [s[0]] + ReplaceLiteral(s[1..], target, repl) + "" == ReplaceLiteral(s, target, repl);
    }
  }

  /** A question without any of the six trigger phrases is only lower-cased and repeated. */
  lemma PlainQuestion(question: string)
    requires var q := ToLower(question);
      && !Contains(q, "who is") && !Contains(q, "what is") && !Contains(q, "when")
      && !Contains(q, "where") && !Contains(q, "how much") && !Contains(q, "salary")
    ensures EnhanceQuestion(question) == ToLower(question) + " " + question
  {
    var q := ToLower(question);
    ReplaceAbsent(q, "who is", "who is information about person details");
    ReplaceAbsent(q, "what is", "what is information about details");
    ReplaceAbsent(q, "when", "when date time");
    ReplaceAbsent(q, "where", "where location place");
    ReplaceAbsent(q, "how much", "how much amount cost price value");
    ReplaceAbsent(q, "salary", "salary income compensation");
  }

  /** The salary expansion is the last replacement, so a "salary" left by the others is always expanded. */
  lemma SalaryExpanded(question: string, s5: string)
    requires s5 == ReplaceLiteral(ReplaceLiteral(ReplaceLiteral(ReplaceLiteral(ReplaceLiteral(ToLower(question),
      "who is", "who is information about person details"), "what is", "what is information about details"),
      "when", "when date time"), "where", "where location place"), "how much", "how much amount cost price value")
    requires Contains(s5, "salary")
    ensures Contains(EnhanceQuestion(question), "salary income compensation")
  {
    var e := Expand(ToLower(question));
    ReplacePresent(s5, "salary", "salary income compensation");
    ContainsWithin("", e, " " + question, "salary income compensation");
    assert "" + e + (" " + question) == EnhanceQuestion(question);
  }

  // ---------------------------------------------------------------------
  // fetchAllDocumentChunks
  // ---------------------------------------------------------------------

  /** The passages documentChunksCache.get gave for one id; a failure counts as none. */
  function ChunksOrNone(load: string -> Result<seq<TextChunk>>): string -> seq<TextChunk>
  {
    id => if load(id).Ok? then load(id).value else []
  }

  /**
   * fetchAllDocumentChunks: the passages of the ids, document after document.
   * A passage is fetched exactly when some requested id loads successfully
   * with it; a failing id gives nothing.
   */
  function FetchAll(load: string -> Result<seq<TextChunk>>, ids: seq<string>): (r: seq<TextChunk>)
    ensures forall c :: c in r <==> exists id :: id in ids && load(id).Ok? && c in load(id).value
  {
    FlatMap(ChunksOrNone(load), ids)
  }

  /** Fetching a list of ids is fetching its parts one after the other. */
  lemma FetchAllAppend(load: string -> Result<seq<TextChunk>>, a: seq<string>, b: seq<string>)
    ensures FetchAll(load, a + b) == FetchAll(load, a) + FetchAll(load, b)
  {
    FlatMapAppend(ChunksOrNone(load), a, b);
  }

  // ---------------------------------------------------------------------
  // queryDocuments
  // ---------------------------------------------------------------------

  /** The float 0.3f, exactly. */
  const Point3F: real := 0.300000011920928955078125

  const NoDocumentsMessage: string := "No valid documents found for the provided IDs"
  const NotEnoughMessage: string :=
    "I don't have enough information to answer this question based on the documents provided."

  /** What the query depends on: the chunk cache, the embedding client and the cosine similarity. */
  datatype Services = Services(
    load: string -> Result<seq<TextChunk>>,
    client: Client,
    cosine: (Vector, Vector) -> real)

  /**
   * The answer: the fixed reply, or what the language model is prompted
   * with (the ranked passages, the selected ones and their context) and the
   * confidence reported beside its answer.
   */
  datatype Answer =
    | Fixed(text: string, confidence: real)
    | Prompted(ranked: seq<RankedChunk>, chunks: seq<TextChunk>, context: string, confidence: real)

  /** Math.min(minRelevanceScore, 0.3f). */
  function Threshold(minRelevance: real): (t: real)
    ensures t <= minRelevance && t <= Point3F
    ensures t == minRelevance || t == Point3F
  {
    if minRelevance <= Point3F then minRelevance else Point3F
  }

  /** The mean score of the ranked passages (the confidence), 0 for none. */
  function MeanScore(ranked: seq<RankedChunk>): real
  {
    if |ranked| == 0 then 0.0 else ScoreSum(ranked) / |ranked| as real
  }

  function ScoreSum(ranked: seq<RankedChunk>): real
    decreases |ranked|
  {
    if |ranked| == 0 then 0.0 else ScoreSum(ranked[..|ranked| - 1]) + Last(ranked).score
  }

  /** The embedding pass: similarity at least min(minRelevance, 0.3f), at most 3 * maxResults passages. */
  function RelevancePass(env: Services, all: seq<TextChunk>, query: Vector, maxResults: int, minRelevance: real)
    : Result<seq<RankedChunk>>
  {
    RankChunksByRelevance(all, Some(query), Wrap32(maxResults * 3), Threshold(minRelevance), env.cosine)
  }

  /** The ranked passages: the embedding pass, or the keyword pass on the original question when it is empty. */
  function Ranked(env: Services, all: seq<TextChunk>, question: string, query: Vector, maxResults: int,
                  minRelevance: real): Result<seq<RankedChunk>>
  {
    var first :- RelevancePass(env, all, query, maxResults, minRelevance);
    if first != [] then Ok(first) else RankChunksByKeywords(all, question, Wrap32(maxResults * 3))
  }

  /**
   * queryDocuments, up to the prompt and the call to the language model. No
   * passage fails with ApplicationException; an answer needs some passage and
   * an embedding of the enhanced question; the only fixed answer is the
   * not-enough reply with confidence 0.
   */
  function QueryDocuments(env: Services, ids: seq<string>, question: string, maxResults: int, minRelevance: real)
    : (r: Result<Answer>)
    ensures FetchAll(env.load, ids) == [] ==> r == Err(ApplicationException(NoDocumentsMessage))
    ensures r.Ok? ==> FetchAll(env.load, ids) != [] && GenerateEmbedding(env.client, EnhanceQuestion(question)).Ok?
    ensures r.Ok? && r.value.Fixed? ==> r.value == Fixed(NotEnoughMessage, 0.0)
  {
    var text := EnhanceQuestion(question);
    var all := FetchAll(env.load, ids);
    if all == [] then Err(ApplicationException(NoDocumentsMessage))
    else
      var query :- GenerateEmbedding(env.client, text);
      var ranked :- Ranked(env, all, question, query, maxResults, minRelevance);
      if ranked == [] then Ok(Fixed(NotEnoughMessage, 0.0))
      else
        var chunks := Selection(ranked, maxResults).value;
        Ok(Prompted(ranked, chunks, ContextText(chunks), MeanScore(ranked)))
  }

  // ---------------------------------------------------------------------
  // Properties of the query
  // ---------------------------------------------------------------------

  /** A requested document that fails to load or holds no passage. */
  predicate LoadsNothing(env: Services, id: string) {
    env.load(id).Err? || env.load(id).value == []
  }

  /** No passage for the requested ids: ApplicationException, before any embedding is asked for. */
  lemma NoChunksFails(env: Services, ids: seq<string>, question: string, maxResults: int, minRelevance: real)
    requires forall id :: id in ids ==> LoadsNothing(env, id)
    ensures QueryDocuments(env, ids, question, maxResults, minRelevance) == Err(ApplicationException(NoDocumentsMessage))
  {
    FetchNothing(env, ids);
  }

  lemma {:induction false} FetchNothing(env: Services, ids: seq<string>)
    requires forall id :: id in ids ==> LoadsNothing(env, id)
    ensures FetchAll(env.load, ids) == []
    decreases |ids|
  {
    if |ids| > 0 {
      FetchNothing(env, ids[..|ids| - 1]);
      assert FetchAll(env.load, ids) == FetchAll(env.load, ids[..|ids| - 1]) + ChunksOrNone(env.load)(Last(ids));
    }
  }

  /** Facts about one ranked list of the query. */
  predicate RankedWell(rs: seq<RankedChunk>, all: seq<TextChunk>, limit: int, keep: real -> bool) {
    && |rs| <= limit
    && Descending(rs)
    && (forall x :: x in rs ==> x.chunk in all && keep(x.score))
  }

  lemma RelevanceFacts(env: Services, all: seq<TextChunk>, query: Vector, maxResults: int, minRelevance: real)
    requires RelevancePass(env, all, query, maxResults, minRelevance).Ok?
    ensures RankedWell(RelevancePass(env, all, query, maxResults, minRelevance).value, all,
                       Wrap32(maxResults * 3), AtLeast(Threshold(minRelevance)))
  {
    PipelineFrom(all, Similarities(all, Some(query), env.cosine), AtLeast(Threshold(minRelevance)), Wrap32(maxResults * 3));
  }

  lemma KeywordFacts(all: seq<TextChunk>, kws: set<string>, limit: int)
    requires Pipeline(KeywordScores(all, kws), Positive, limit).Ok?
    ensures RankedWell(Pipeline(KeywordScores(all, kws), Positive, limit).value, all, limit, Positive)
  {
    PipelineFrom(all, KeywordScores(all, kws), Positive, limit);
  }

  /**
   * The ranked list: at most the limit 3 * maxResults (as a Java int), best
   * first, made of requested passages, and either all at least the threshold
   * min(minRelevance, 0.3f) or all with a positive keyword score.
   */
  lemma RankedFacts(env: Services, all: seq<TextChunk>, question: string, query: Vector, maxResults: int,
                    minRelevance: real)
    requires Ranked(env, all, question, query, maxResults, minRelevance).Ok?
    ensures var rs := Ranked(env, all, question, query, maxResults, minRelevance).value;
      || RankedWell(rs, all, Wrap32(maxResults * 3), AtLeast(Threshold(minRelevance)))
      || RankedWell(rs, all, Wrap32(maxResults * 3), Positive)
  {
    var first := RelevancePass(env, all, query, maxResults, minRelevance);
    RelevanceFacts(env, all, query, maxResults, minRelevance);
    if first.value == [] {
      KeywordFacts(all, ExtractKeywords(ToLower(question)), Wrap32(maxResults * 3));
    }
  }

  /** The selected passages are passages of the ranked list. */
  lemma SelectionFrom(ranked: seq<RankedChunk>, maxResults: int, c: TextChunk)
    requires Selection(ranked, maxResults).Ok? && c in Selection(ranked, maxResults).value
    ensures exists x :: x in ranked && x.chunk == c
  {
    var cs := Selection(ranked, maxResults).value;
    var k :| 0 <= k < |cs| && cs[k] == c;
    if |ranked| <= maxResults {
      assert ranked[k].chunk == c;
    } else {
      var p := DiversePicks(ranked, maxResults);
      assert ranked[p[k]].chunk == c;
    }
  }

  /**
   * The outcome once passages were found and the question embedded: the
   * embedding pass when it ranks something, else the keyword pass on the
   * original question; nothing ranked gives the fixed reply with confidence 0.
   */
  lemma QueryOutcome(env: Services, ids: seq<string>, question: string, maxResults: int, minRelevance: real)
    requires FetchAll(env.load, ids) != []
    requires GenerateEmbedding(env.client, EnhanceQuestion(question)).Ok?
    ensures var all := FetchAll(env.load, ids);
      var query := GenerateEmbedding(env.client, EnhanceQuestion(question)).value;
      var first := RelevancePass(env, all, query, maxResults, minRelevance);
      var second := RankChunksByKeywords(all, question, Wrap32(maxResults * 3));
      var r := QueryDocuments(env, ids, question, maxResults, minRelevance);
      && (first.Err? ==> r == Err(first.error))
      && (first.Ok? && first.value != [] ==> r.Ok? && r.value.Prompted? && r.value.ranked == first.value)
      && (first == Ok([]) && second.Err? ==> r == Err(second.error))
      && (first == Ok([]) && second == Ok([]) ==> r == Ok(Fixed(NotEnoughMessage, 0.0)))
      && (first == Ok([]) && second.Ok? && second.value != [] ==>
            r.Ok? && r.value.Prompted? && r.value.ranked == second.value)
  {
    var all := FetchAll(env.load, ids);
    var query := GenerateEmbedding(env.client, EnhanceQuestion(question)).value;
    var ranked := Ranked(env, all, question, query, maxResults, minRelevance);
    if ranked.Ok? && ranked.value != [] {
      SelectionShape(ranked.value, maxResults);
    }
  }

  /**
   * A prompted answer: the diverse selection of the ranked list, its
   * context, the mean ranked score as confidence; every passage comes from a
   * requested document and loaded successfully, and with maxResults >= 1 at
   * most maxResults passages are selected.
   */
  lemma PromptedAnswer(env: Services, ids: seq<string>, question: string, maxResults: int, minRelevance: real)
    requires QueryDocuments(env, ids, question, maxResults, minRelevance).Ok?
    requires QueryDocuments(env, ids, question, maxResults, minRelevance).value.Prompted?
    ensures var a := QueryDocuments(env, ids, question, maxResults, minRelevance).value;
      && a.ranked != []
      && |a.ranked| <= Wrap32(maxResults * 3)
      && Selection(a.ranked, maxResults) == Ok(a.chunks)
      && a.context == ContextText(a.chunks)
      && a.confidence == MeanScore(a.ranked)
      && (maxResults >= 1 ==> |a.chunks| <= maxResults)
      && (forall c :: c in a.chunks ==> exists id :: id in ids && env.load(id).Ok? && c in env.load(id).value)
  {
    var all := FetchAll(env.load, ids);
    var query := GenerateEmbedding(env.client, EnhanceQuestion(question)).value;
    var ranked := Ranked(env, all, question, query, maxResults, minRelevance).value;
    var a := QueryDocuments(env, ids, question, maxResults, minRelevance).value;
    RankedFacts(env, all, question, query, maxResults, minRelevance);
    SelectionShape(ranked, maxResults);
    if maxResults >= 1 && |ranked| > maxResults {
      assert |a.chunks| == |DiversePicks(ranked, maxResults)|;
    }
    forall c | c in a.chunks ensures exists id :: id in ids && env.load(id).Ok? && c in env.load(id).value {
      SelectionFrom(ranked, maxResults, c);
    }
  }

  /**
   * A limit of 3 * maxResults that is negative as a Java int (a negative
   * maxResults, or one above 715827882 that overflows) makes Stream.limit
   * throw once passages were found and the question embedded.
   */
  lemma NegativeLimitFails(env: Services, ids: seq<string>, question: string, maxResults: int, minRelevance: real)
    requires FetchAll(env.load, ids) != []
    requires GenerateEmbedding(env.client, EnhanceQuestion(question)).Ok?
    requires Wrap32(maxResults * 3) < 0
    ensures QueryDocuments(env, ids, question, maxResults, minRelevance)
      == Err(IllegalArgument(IntToString(Wrap32(maxResults * 3))))
  {
  }

  /** maxResults = 715827883 is a valid int whose triple overflows to a negative limit. */
  lemma LimitOverflows()
    ensures IsInt32(715827883) && Wrap32(715827883 * 3) == -2147483647
  {
  }
}
