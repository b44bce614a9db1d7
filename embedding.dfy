/**
 * The embedding service: turns passages into embedding vectors through the
 * language-model client, either one request per text or, when the model
 * accepts lists of prompts, one request per group of ten texts.
 */
module Embedding {
  import opened Dto
  import opened JavaStrings

  /** Texts per batch request (BATCH_SIZE). */
  const BatchSize: nat := 10

  /**
   * The client's embedding endpoint. `one` answers a request with a single
   * prompt and `many` a request with a list of prompts; None stands for a
   * call that throws.
   */
  datatype Client = Client(one: string -> Option<Vector>, many: seq<string> -> Option<seq<Vector>>)

  /** generateEmbedding: refuses a blank text, otherwise asks the client for one vector. */
  function GenerateEmbedding(client: Client, text: string): (r: Result<Vector>)
    ensures IsBlank(text) ==> r == Err(ApplicationException("Text cannot be null or blank"))
    ensures !IsBlank(text) && client.one(text).None? ==> r == Err(ApplicationException("Failed to generate embedding"))
    ensures r.Ok? <==> !IsBlank(text) && client.one(text).Some?
    ensures r.Ok? ==> r.value == client.one(text).value
  {
    if IsBlank(text) then Err(ApplicationException("Text cannot be null or blank"))
    else match client.one(text)
      case None => Err(ApplicationException("Failed to generate embedding"))
      case Some(v) => Ok(v)
  }

  /** The texts that are not blank, in their order. */
  function ValidTexts(texts: seq<string>): (r: seq<string>)
    ensures |r| <= |texts|
    ensures forall k :: 0 <= k < |r| ==> !IsBlank(r[k])
    ensures forall k :: 0 <= k < |texts| && !IsBlank(texts[k]) ==> texts[k] in r
    ensures forall k :: 0 <= k < |r| ==> r[k] in texts
  {
    if |texts| == 0 then []
    else if IsBlank(texts[0]) then ValidTexts(texts[1..])
    else [texts[0]] + ValidTexts(texts[1..])
  }

  /** A list of texts cut into consecutive groups of `size`, the last one possibly shorter. */
  function Groups(texts: seq<string>, size: nat): (gs: seq<seq<string>>)
    requires size > 0
    decreases |texts|
  {
    if |texts| == 0 then []
    else if |texts| <= size then [texts]
    else [texts[..size]] + Groups(texts[size..], size)
  }

  /** Every group holds between one and `size` texts. */
  lemma {:induction false} GroupSizes(texts: seq<string>, size: nat)
    requires size > 0
    ensures forall k :: 0 <= k < |Groups(texts, size)| ==> 0 < |Groups(texts, size)[k]| <= size
    decreases |texts|
  {
    if |texts| > size {
      GroupSizes(texts[size..], size);
    }
  }

  /** Putting the groups back together gives the texts. */
  lemma {:induction false} GroupsFlatten(texts: seq<string>, size: nat)
    requires size > 0
    ensures FlatMap((g: seq<string>) => g, Groups(texts, size)) == texts
    decreases |texts|
  {
    var id := (g: seq<string>) => g;
    if |texts| == 0 {
    } else if |texts| <= size {
      FlatMapOne(id, texts);
    } else {
      GroupsFlatten(texts[size..], size);
      FlatMapAppend(id, [texts[..size]], Groups(texts[size..], size));
      FlatMapOne(id, texts[..size]);
      assert texts[..size] + texts[size..] == texts;
    }
  }

  /** processSingleBatch: one request for a whole group. */
  function SingleBatch(client: Client, group: seq<string>): (r: Result<seq<Vector>>)
    ensures r.Ok? <==> client.many(group).Some?
    ensures r.Err? ==> r.error == ApplicationException("Failed to generate batch embeddings")
  {
    match client.many(group)
    case None => Err(ApplicationException("Failed to generate batch embeddings"))
    case Some(vs) => Ok(vs)
  }

  /** The vectors of the groups, one request per group in order; the first failing request ends it. */
  function EmbedGroups(client: Client, gs: seq<seq<string>>): (r: Result<seq<Vector>>)
    ensures r.Err? ==> r.error == ApplicationException("Failed to generate batch embeddings")
    decreases |gs|
  {
    if |gs| == 0 then Ok([])
    else match SingleBatch(client, gs[0])
      case Err(e) => Err(e)
      case Ok(v) =>
        match EmbedGroups(client, gs[1..])
        case Err(e) => Err(e)
        case Ok(w) => Ok(v + w)
  }

  /** The answer of the batch mode for a list of texts. */
  function BatchEmbeddings(client: Client, texts: seq<string>): Result<seq<Vector>>
  {
    EmbedGroups(client, Groups(texts, BatchSize))
  }

  /** processNonBatchEmbeddings: one generateEmbedding task per text, joined in list order. */
  function EmbedEach(client: Client, texts: seq<string>): (r: Result<seq<Vector>>)
    ensures r.Ok? ==> |r.value| == |texts|
    ensures r.Ok? ==> forall k :: 0 <= k < |texts| ==> GenerateEmbedding(client, texts[k]) == Ok(r.value[k])
    ensures r.Err? ==> r.error.CompletionException?
    decreases |texts|
  {
    if |texts| == 0 then Ok([])
    else match GenerateEmbedding(client, texts[0])
      case Err(e) => Err(CompletionException(e))
      case Ok(v) =>
        match EmbedEach(client, texts[1..])
        case Err(e) => Err(e)
        case Ok(vs) => Ok([v] + vs)
  }

  /**
   * The answer of generateEmbeddings for a list of texts: nothing when no
   * text is non-blank; per text, one vector for each non-blank text or a
   * CompletionException; in batch mode a failure is the batch exception.
   */
  function Embeddings(client: Client, batchMode: bool, texts: seq<string>): (r: Result<seq<Vector>>)
    ensures ValidTexts(texts) == [] ==> r == Ok([])
    ensures !batchMode && r.Ok? ==> |r.value| == |ValidTexts(texts)|
    ensures !batchMode && r.Err? ==> r.error.CompletionException?
    ensures batchMode && r.Err? ==> r.error == ApplicationException("Failed to generate batch embeddings")
  {
    var valid := ValidTexts(texts);
    if |texts| == 0 || |valid| == 0 then Ok([])
    else if batchMode then BatchEmbeddings(client, valid)
    else EmbedEach(client, valid)
  }

  /**
   * processBatchEmbeddings: more than ten texts go out in groups of ten,
   * offset by offset; up to ten go out as a single request.
   */
  method ProcessBatchEmbeddings(client: Client, texts: seq<string>) returns (r: Result<seq<Vector>>)
    requires |texts| > 0
    ensures r == BatchEmbeddings(client, texts)
  {
    if |texts| > BatchSize {
      r := ProcessInGroups(client, texts);
    } else {
      r := SingleBatch(client, texts);
      OneGroup(client, texts);
    }
  }

  /** The loop over the offsets 0, 10, 20, ...: each group's vectors are added in order. */
  method ProcessInGroups(client: Client, texts: seq<string>) returns (r: Result<seq<Vector>>)
    ensures r == BatchEmbeddings(client, texts)
  {
    var results: seq<Vector> := [];
    var i := 0;
    assert From(texts, 0) == texts;
    PrefixedEmpty(BatchEmbeddings(client, texts));
    while i < |texts|
      invariant Prefixed(results, EmbedGroups(client, Groups(From(texts, i), BatchSize))) == BatchEmbeddings(client, texts)
      decreases |texts| - i
    {
      var end := if i + BatchSize < |texts| then i + BatchSize else |texts|;
      var batch := texts[i..end];
      var part := SingleBatch(client, batch);
      GroupsStep(client, texts, i, part);
      if part.Err? {
        return Err(part.error);
      }
      PrefixedTwice(results, part.value, EmbedGroups(client, Groups(From(texts, i + BatchSize), BatchSize)));
      results := results + part.value;
      i := i + BatchSize;
    }
    assert From(texts, i) == [];
    assert results + [] == results;
    return Ok(results);
  }

  /** Up to ten texts form a single group. */
  lemma OneGroup(client: Client, texts: seq<string>)
    requires 0 < |texts| <= BatchSize
    ensures BatchEmbeddings(client, texts) == SingleBatch(client, texts)
  {
    var gs := Groups(texts, BatchSize);
    assert gs == [texts];
    assert gs[1..] == [];
    assert EmbedGroups(client, gs[1..]) == Ok([]);
    var r := SingleBatch(client, texts);
    if r.Ok? {
      assert r.value + [] == r.value;
      assert EmbedGroups(client, gs) == Ok(r.value + []);
    } else {
      assert EmbedGroups(client, gs) == r;
    }
  }

  /** The texts from position i on (none once i passes the end). */
  function From(texts: seq<string>, i: nat): (r: seq<string>)
    ensures i < |texts| ==> r == texts[i..]
    ensures i >= |texts| ==> r == []
  {
    if i < |texts| then texts[i..] else []
  }

  /** One loop step: the answer from offset i is the batch at i followed by the answer from the next offset. */
  lemma GroupsStep(client: Client, texts: seq<string>, i: nat, part: Result<seq<Vector>>)
    requires i < |texts|
    requires part == SingleBatch(client, texts[i..if i + BatchSize < |texts| then i + BatchSize else |texts|])
    ensures var rest := EmbedGroups(client, Groups(From(texts, i + BatchSize), BatchSize));
      EmbedGroups(client, Groups(From(texts, i), BatchSize))
        == if part.Err? then part else Prefixed(part.value, rest)
  {
    var end := if i + BatchSize < |texts| then i + BatchSize else |texts|;
    var rest := texts[i..];
    var gs := Groups(rest, BatchSize);
    if |rest| > BatchSize {
      assert rest[..BatchSize] == texts[i..i + BatchSize];
      assert rest[BatchSize..] == texts[i + BatchSize..];
    } else {
      assert rest == texts[i..|texts|];
      assert gs[1..] == [];
    }
    assert gs[0] == texts[i..end] && gs[1..] == Groups(From(texts, i + BatchSize), BatchSize);
  }

  /** generateEmbeddings: nothing for no texts or only blank ones, otherwise the configured mode. */
  method GenerateEmbeddings(client: Client, batchMode: bool, texts: seq<string>) returns (r: Result<seq<Vector>>)
    ensures r == Embeddings(client, batchMode, texts)
  {
    if |texts| == 0 {
      return Ok([]);
    }
    var valid := ValidTexts(texts);
    if |valid| == 0 {
      return Ok([]);
    }
    if batchMode {
      r := ProcessBatchEmbeddings(client, valid);
    } else {
      r := EmbedEach(client, valid);
    }
  }

  // ---------------------------------------------------------------------
  // Properties
  // ---------------------------------------------------------------------

  /** Blank texts are never sent: a list of blank texts gets no vectors and asks nothing. */
  lemma {:induction false} BlankTextsNeedNoRequest(client: Client, batchMode: bool, texts: seq<string>)
    requires forall k :: 0 <= k < |texts| ==> IsBlank(texts[k])
    ensures ValidTexts(texts) == []
    ensures Embeddings(client, batchMode, texts) == Ok([])
    decreases |texts|
  {
    if |texts| > 0 {
      BlankTextsNeedNoRequest(client, batchMode, texts[1..]);
    }
  }

  /** The answers of one request per text, as a batch endpoint that just forwarded each prompt would give. */
  function EachOne(client: Client, g: seq<string>): (r: Option<seq<Vector>>)
    decreases |g|
  {
    if |g| == 0 then Some([])
    else match client.one(g[0])
      case None => None
      case Some(v) =>
        match EachOne(client, g[1..])
        case None => None
        case Some(vs) => Some([v] + vs)
  }

  /** A client whose list requests answer exactly like the corresponding single requests. */
  ghost predicate Consistent(client: Client) {
    forall g :: client.many(g) == EachOne(client, g)
  }

  /** For non-blank texts, one task per text fails exactly when some single request fails. */
  lemma {:induction false} EachAgrees(client: Client, texts: seq<string>)
    requires forall k :: 0 <= k < |texts| ==> !IsBlank(texts[k])
    ensures EmbedEach(client, texts).Ok? <==> EachOne(client, texts).Some?
    ensures EmbedEach(client, texts).Ok? ==> EmbedEach(client, texts).value == EachOne(client, texts).value
    decreases |texts|
  {
    if |texts| > 0 {
      EachAgrees(client, texts[1..]);
    }
  }

  /** One-per-text answers of a concatenation are the answers of its two parts. */
  lemma {:induction false} EachOneAppend(client: Client, a: seq<string>, b: seq<string>)
    ensures EachOne(client, a + b).Some? <==> EachOne(client, a).Some? && EachOne(client, b).Some?
    ensures EachOne(client, a + b).Some? ==> EachOne(client, a + b).value == EachOne(client, a).value + EachOne(client, b).value
    decreases |a|
  {
    if |a| == 0 {
      assert a + b == b;
    } else {
      assert (a + b)[0] == a[0];
      assert (a + b)[1..] == a[1..] + b;
      EachOneAppend(client, a[1..], b);
      if EachOne(client, a + b).Some? {
        var v := client.one(a[0]).value;
        assert [v] + (EachOne(client, a[1..]).value + EachOne(client, b).value)
            == ([v] + EachOne(client, a[1..]).value) + EachOne(client, b).value;
      }
    }
  }

  /** Grouped requests to a consistent client answer like one request per text. */
  lemma {:induction false} GroupsAgree(client: Client, texts: seq<string>)
    requires Consistent(client)
    ensures EmbedGroups(client, Groups(texts, BatchSize)).Ok? <==> EachOne(client, texts).Some?
    ensures EmbedGroups(client, Groups(texts, BatchSize)).Ok? ==>
      EmbedGroups(client, Groups(texts, BatchSize)).value == EachOne(client, texts).value
    decreases |texts|
  {
    var gs := Groups(texts, BatchSize);
    if |texts| == 0 {
    } else if |texts| <= BatchSize {
      assert gs == [texts];
      assert client.many(texts) == EachOne(client, texts);
      assert gs[1..] == [];
      if EachOne(client, texts).Some? {
        assert EachOne(client, texts).value + [] == EachOne(client, texts).value;
      }
    } else {
      var g, rest := texts[..BatchSize], texts[BatchSize..];
      assert gs[0] == g && gs[1..] == Groups(rest, BatchSize);
      assert client.many(g) == EachOne(client, g);
      GroupsAgree(client, rest);
      assert g + rest == texts;
      EachOneAppend(client, g, rest);
    }
  }

  /**
   * Batching is transparent: with a client whose list requests agree with its
   * single requests, both modes succeed for the same texts and give the same vectors.
   */
  lemma ModesAgree(client: Client, texts: seq<string>)
    requires Consistent(client)
    ensures Embeddings(client, true, texts).Ok? <==> Embeddings(client, false, texts).Ok?
    ensures Embeddings(client, true, texts).Ok? ==> Embeddings(client, true, texts).value == Embeddings(client, false, texts).value
  {
    var valid := ValidTexts(texts);
    if |texts| > 0 && |valid| > 0 {
      GroupsAgree(client, valid);
      EachAgrees(client, valid);
    }
  }

  /** A list with no blank text passes the filter whole. */
  lemma {:induction false} ValidAll(texts: seq<string>)
    requires forall k :: 0 <= k < |texts| ==> !IsBlank(texts[k])
    ensures ValidTexts(texts) == texts
    decreases |texts|
  {
    if |texts| > 0 {
      ValidAll(texts[1..]);
      assert [texts[0]] + texts[1..] == texts;
    }
  }

  /** With a client that answers every single request, one task per non-blank text succeeds. */
  lemma {:induction false} EachAnswers(client: Client, texts: seq<string>)
    requires forall t :: client.one(t).Some?
    requires forall k :: 0 <= k < |texts| ==> !IsBlank(texts[k])
    ensures EmbedEach(client, texts).Ok?
    decreases |texts|
  {
    if |texts| > 0 {
      assert client.one(texts[0]).Some?;
      EachAnswers(client, texts[1..]);
    }
  }

  /**
   * A client that always answers: in batch mode one vector per prompt of
   * every list request, otherwise a vector for every single request.
   */
  ghost predicate Answers(client: Client, batchMode: bool) {
    if batchMode then forall g :: client.many(g).Some? && |client.many(g).value| == |g|
    else forall t :: client.one(t).Some?
  }

  /** Against a client that always answers, every list of non-blank texts gets one vector per text. */
  lemma AnswersAll(client: Client, batchMode: bool, texts: seq<string>)
    requires Answers(client, batchMode)
    requires forall k :: 0 <= k < |texts| ==> !IsBlank(texts[k])
    ensures Embeddings(client, batchMode, texts).Ok?
    ensures |Embeddings(client, batchMode, texts).value| == |texts|
  {
    ValidAll(texts);
    if |texts| > 0 {
      if batchMode {
        GroupsOnePerText(client, texts);
      } else {
        EachAnswers(client, texts);
      }
    }
  }

  /** With a client that gives one vector per prompt, batch mode yields one vector per non-blank text. */
  lemma {:induction false} GroupsOnePerText(client: Client, texts: seq<string>)
    requires forall g :: client.many(g).Some? && |client.many(g).value| == |g|
    ensures EmbedGroups(client, Groups(texts, BatchSize)).Ok?
    ensures |EmbedGroups(client, Groups(texts, BatchSize)).value| == |texts|
    decreases |texts|
  {
    var gs := Groups(texts, BatchSize);
    if |texts| == 0 {
    } else if |texts| <= BatchSize {
      assert gs == [texts] && gs[1..] == [];
      assert client.many(texts).Some?;
    } else {
      assert gs[0] == texts[..BatchSize] && gs[1..] == Groups(texts[BatchSize..], BatchSize);
      assert client.many(texts[..BatchSize]).Some?;
      GroupsOnePerText(client, texts[BatchSize..]);
    }
  }
}
