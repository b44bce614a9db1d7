/**
 * The ingestion side of DocumentService: the ProcessingStatusDto record,
 * the per-document status map with its in-flight counter and summary,
 * the embedding batch loop of processDocument, and the removal of one or
 * all documents.
 */
module Ingestion {
  import opened Dto
  import opened JavaStrings
  import ChunkRules
  import ContentUtils
  import Embedding
  import SemanticChunker
  import PdfUtils
  import Storage

  // ---------------------------------------------------------------------
  // Constants
  // ---------------------------------------------------------------------

  /** Constants.PROCESSING, Constants.COMPLETED, Constants.FAILED. */
  const Processing: string := "processing"
  const Completed: string := "completed"
  const Failed: string := "failed"

  /** TimeUnit.HOURS.toMillis(1). */
  const OneHourMillis: int := 3_600_000

  /** The embedding loop sends a batch once it holds this many passages. */
  const EmbeddingBatchSize: nat := 20

  /** processDocument reads the PDF this many pages at a time. */
  const PageBatchSize: nat := 50

  // ---------------------------------------------------------------------
  // ProcessingStatusDto
  // ---------------------------------------------------------------------

  /** The status of one upload: its file name, the last progress reported and when. */
  class ProcessingStatus {
    const filename: string
    var progress: int
    var message: string
    var lastUpdated: int
    /** Every progress value this status has held, oldest first. */
    ghost var history: seq<int>

    ghost predicate Valid()
      reads this
    {
      |history| > 0 && Last(history) == progress
    }

    /** The constructor; `now` is System.currentTimeMillis(). */
    constructor(filename: string, progress: int, message: string, now: int)
      ensures this.filename == filename && this.progress == progress && this.message == message
      ensures lastUpdated == now && history == [progress]
      ensures Valid()
    {
      this.filename := filename;
      this.progress := progress;
      this.message := message;
      lastUpdated := now;
      history := [progress];
    }

    /** update: the given progress and message are stored as they are, with no range check. */
    method Update(progress: int, message: string, now: int)
      modifies this
      ensures this.progress == progress && this.message == message && lastUpdated == now
      ensures history == old(history) + [progress]
      ensures Valid()
    {
      this.progress := progress;
      this.message := message;
      lastUpdated := now;
      history := history + [progress];
    }
  }

  /** Each value is at least the one before it. */
  predicate NonDecreasing(h: seq<int>) {
    forall k :: 0 < k < |h| ==> h[k - 1] <= h[k]
  }

  /** Every value lies in [lo, hi]. */
  predicate Within(h: seq<int>, lo: int, hi: int) {
    forall k :: 0 <= k < |h| ==> lo <= h[k] <= hi
  }

  /** One more value, no lower than the last, keeps a history non-decreasing. */
  lemma NonDecreasingSnoc(h: seq<int>, x: int)
    requires NonDecreasing(h) && (|h| > 0 ==> Last(h) <= x)
    ensures NonDecreasing(h + [x])
  {
    forall k | 0 < k < |h| + 1 ensures (h + [x])[k - 1] <= (h + [x])[k] {
      if k < |h| {
        assert (h + [x])[k - 1] == h[k - 1] && (h + [x])[k] == h[k];
      }
    }
  }

  /**
   * x / n on non-negative operands, by repeated subtraction: the percentage
   * arithmetic of processDocument (the double quotient scaled and cast to
   * int) on exact values.
   */
  function Quot(x: nat, n: nat): nat
    requires n > 0
    decreases x
  {
    if x < n then 0 else 1 + Quot(x - n, n)
  }

  /** A larger dividend never gives a smaller quotient. */
  lemma {:induction false} QuotMonotone(a: nat, b: nat, n: nat)
    requires a <= b && n > 0
    ensures Quot(a, n) <= Quot(b, n)
    decreases a
  {
    if a >= n {
      QuotMonotone(a - n, b - n, n);
    }
  }

  /** A dividend of at most k times the divisor gives at most k. */
  lemma {:induction false} QuotAtMost(x: nat, n: nat, k: nat)
    requires n > 0 && x <= k * n
    ensures Quot(x, n) <= k
    decreases x
  {
    if x >= n {
      assert k * n - n == (k - 1) * n;
      QuotAtMost(x - n, n, k - 1);
    }
  }

  /** k times the divisor gives exactly k. */
  lemma {:induction false} QuotExact(k: nat, n: nat)
    requires n > 0
    ensures Quot(k * n, n) == k
    decreases k
  {
    if k > 0 {
      assert k * n - n == (k - 1) * n;
      QuotExact(k - 1, n);
    }
  }

  // ---------------------------------------------------------------------
  // The status summary of getProcessingStatus
  // ---------------------------------------------------------------------

  /** The group a progress value is counted in. */
  function StateOf(progress: int): (r: string)
    ensures r == Failed <==> progress < 0
    ensures r == Completed <==> progress >= 100
    ensures r == Processing <==> 0 <= progress < 100
  {
    if progress < 0 then Failed
    else if progress >= 100 then Completed
    else Processing
  }

  /** A status is reported while it is in progress, or for an hour after its last update. */
  predicate Recent(progress: int, lastUpdated: int, now: int) {
    (progress < 100 && progress >= 0) || lastUpdated > now - OneHourMillis
  }

  /** The map getProcessingStatus returns, as a record. */
  datatype StatusInfo = StatusInfo(
    activeProcessingCount: int,
    totalDocumentsInProgress: nat,
    processing: nat,
    completed: nat,
    failed: nat,
    documents: map<string, ProcessingStatus>)

  /** The ids in `ids` whose status falls in group `state`. */
  function InState(ids: set<string>, statuses: map<string, ProcessingStatus>, state: string): set<string>
    reads statuses.Values
  {
    set id | id in ids && id in statuses && StateOf(statuses[id].progress) == state
  }

  // ---------------------------------------------------------------------
  // The embedding loop of processDocument
  // ---------------------------------------------------------------------

  /** What the embedding loop calls: generateEmbeddings, detectContentType and formatContentByType. */
  datatype BatchEnv = BatchEnv(
    embed: seq<string> -> Result<seq<Vector>>,
    detect: string -> ContentType,
    format: (string, ContentType) -> string)

  /** The passage the loop queues for a chunk text: the text formatted for its detected type. */
  function Prepare(env: BatchEnv, text: string): string
  {
    env.format(text, env.detect(text))
  }

  /** contentTypeMap.get(content): null when the content was never put. */
  function TypeIn(types: map<string, ContentType>, content: string): Option<ContentType>
  {
    if content in types then Some(types[content]) else None
  }

  /**
   * The inner loop of a flush: one ContentChunkDto per queued passage, its
   * embedding `embeddings.get(i)` and its type looked up by its content;
   * an index past the embeddings returned is an IndexOutOfBoundsException.
   */
  function BatchChunks(batch: seq<string>, vs: seq<Vector>, types: map<string, ContentType>, pageCount: int)
    : (r: Result<seq<ContentChunk>>)
    ensures r.Ok? <==> |batch| <= |vs|
    ensures r.Err? ==> r.error == IndexOutOfBounds(|vs|)
    ensures r.Ok? ==> |r.value| == |batch|
    ensures r.Ok? ==> forall k :: 0 <= k < |r.value| ==> r.value[k].startPage == 1 && r.value[k].endPage == pageCount
    decreases |batch|
  {
    if |batch| == 0 then Ok([])
    else
      var init :- BatchChunks(batch[..|batch| - 1], vs, types, pageCount);
      var i := |batch| - 1;
      if i >= |vs| then Err(IndexOutOfBounds(i))
      else Ok(init + [ContentChunk(batch[i], Some(vs[i]), 1, pageCount, TypeIn(types, batch[i]))])
  }

  /** Each chunk of a flush carries its passage, its own embedding, pages 1..pageCount and its looked-up type. */
  lemma {:induction false} BatchChunksAt(batch: seq<string>, vs: seq<Vector>, types: map<string, ContentType>,
                                         pageCount: int, k: nat)
    requires |batch| <= |vs| && k < |batch|
    ensures BatchChunks(batch, vs, types, pageCount).value[k]
         == ContentChunk(batch[k], Some(vs[k]), 1, pageCount, TypeIn(types, batch[k]))
    decreases |batch|
  {
    if k < |batch| - 1 {
      BatchChunksAt(batch[..|batch| - 1], vs, types, pageCount, k);
    }
  }

  /** One flush: the batch goes to the embedding service, then becomes chunks. */
  function FlushBatch(env: BatchEnv, batch: seq<string>, types: map<string, ContentType>, pageCount: int)
    : Result<seq<ContentChunk>>
  {
    var vs :- env.embed(batch);
    BatchChunks(batch, vs, types, pageCount)
  }

  /**
   * The embedding loop from chunk `i` on, with `done` the chunks made so
   * far and `batch`/`types` the queued passages: a chunk text that trims to
   * nothing is skipped; any other is queued, and the queue is flushed when
   * it holds 20 passages or when the chunks made plus the queued passages
   * number as many as the chunk texts.
   */
  function EmbedLoop(env: BatchEnv, texts: seq<string>, pageCount: int, i: nat, done: seq<ContentChunk>,
                     batch: seq<string>, types: map<string, ContentType>): (r: Result<seq<ContentChunk>>)
    // the chunks made so far are kept, and at most one chunk is added per queued or remaining text
    ensures r.Ok? ==> |done| <= |r.value| && r.value[..|done|] == done
    ensures r.Ok? && i <= |texts| ==> |r.value| <= |done| + |batch| + (|texts| - i)
    // every chunk added spans pages 1 to pageCount
    ensures r.Ok? ==> forall k :: |done| <= k < |r.value| ==> r.value[k].startPage == 1 && r.value[k].endPage == pageCount
    decreases |texts| - i
  {
    if i >= |texts| then Ok(done)
    else if TrimsToEmpty(texts[i]) then EmbedLoop(env, texts, pageCount, i + 1, done, batch, types)
    else
      var t := env.detect(texts[i]);
      var content := env.format(texts[i], t);
      var queued := batch + [content];
      if |queued| >= EmbeddingBatchSize || |done| + |queued| == |texts| then
        var flushed :- FlushBatch(env, queued, types[content := t], pageCount);
        EmbedLoop(env, texts, pageCount, i + 1, done + flushed, [], map[])
      else EmbedLoop(env, texts, pageCount, i + 1, done, queued, types[content := t])
  }

  /** The content chunks processDocument makes from its chunk texts: no more than there are texts, each over pages 1 to pageCount. */
  function Embedded(env: BatchEnv, texts: seq<string>, pageCount: int): (r: Result<seq<ContentChunk>>)
    ensures texts == [] ==> r == Ok([])
    ensures r.Ok? ==> |r.value| <= |texts|
    ensures r.Ok? ==> forall k :: 0 <= k < |r.value| ==> r.value[k].startPage == 1 && r.value[k].endPage == pageCount
  {
    EmbedLoop(env, texts, pageCount, 0, [], [], map[])
  }

  /** Passages none of which isBlank() rejects. */
  predicate AllNonBlank(b: seq<string>) {
    forall k :: 0 <= k < |b| ==> !IsBlank(b[k])
  }

  /** An embedding service that answers every batch of non-blank passages with at least one vector per passage. */
  ghost predicate Healthy(embed: seq<string> -> Result<seq<Vector>>) {
    forall b :: AllNonBlank(b) ==> embed(b).Ok? && |b| <= |embed(b).value|
  }

  /** Chunk texts whose prepared form isBlank() accepts whenever trim() does not empty the text. */
  ghost predicate PreparedNonBlank(env: BatchEnv, texts: seq<string>) {
    forall k :: 0 <= k < |texts| && !TrimsToEmpty(texts[k]) ==> !IsBlank(Prepare(env, texts[k]))
  }

  /** Against a healthy service a flush of non-blank passages yields one chunk per queued passage, in order. */
  lemma FlushFacts(env: BatchEnv, batch: seq<string>, types: map<string, ContentType>, pageCount: int)
    requires Healthy(env.embed) && AllNonBlank(batch)
    ensures FlushBatch(env, batch, types, pageCount).Ok?
    ensures |FlushBatch(env, batch, types, pageCount).value| == |batch|
    ensures forall k :: 0 <= k < |batch| ==> FlushBatch(env, batch, types, pageCount).value[k].text == batch[k]
  {
    var vs := env.embed(batch).value;
    forall k | 0 <= k < |batch| ensures FlushBatch(env, batch, types, pageCount).value[k].text == batch[k] {
      BatchChunksAt(batch, vs, types, pageCount, k);
    }
  }

  /** The non-blank chunk texts, in order. */
  function Kept(texts: seq<string>): seq<string>
  {
    ChunkRules.NonBlank(texts)
  }

  /** How many chunks the loop makes against a healthy service: all when no text is blank, whole batches otherwise. */
  function EmbeddedCount(texts: seq<string>): nat
  {
    var n := |Kept(texts)|;
    if n == |texts| then n else n - n % EmbeddingBatchSize
  }

  /**
   * A state the loop can be in after chunk text `i`: `flushes` batches of
   * 20 have been made, unless the count flush at the last chunk text
   * already happened, and every made or queued passage is the prepared
   * form of the next non-blank text.
   */
  ghost predicate Reachable(env: BatchEnv, texts: seq<string>, i: nat, done: seq<ContentChunk>,
                            batch: seq<string>, flushes: nat)
  {
    && i <= |texts|
    && |done| + |batch| == |Kept(texts[..i])| && |batch| < EmbeddingBatchSize && AllNonBlank(batch)
    && (|done| == EmbeddingBatchSize * flushes || (i == |texts| && |Kept(texts)| == |texts|))
    && (i == |texts| && |Kept(texts)| == |texts| ==> batch == [])
    && (forall k :: 0 <= k < |done| ==> done[k].text == Prepare(env, Kept(texts[..i])[k]))
    && (forall k :: 0 <= k < |batch| ==> batch[k] == Prepare(env, Kept(texts[..i])[|done| + k]))
  }

  /** Facts about the non-blank prefix after one more chunk text. */
  lemma KeptStep(texts: seq<string>, i: nat)
    requires i < |texts|
    ensures TrimsToEmpty(texts[i]) ==> Kept(texts[..i + 1]) == Kept(texts[..i])
    ensures !TrimsToEmpty(texts[i]) ==> Kept(texts[..i + 1]) == Kept(texts[..i]) + [texts[i]]
    ensures i + 1 < |texts| ==> |Kept(texts[..i + 1])| < |texts|
    ensures i + 1 == |texts| ==> Kept(texts[..i + 1]) == Kept(texts)
    ensures i + 1 == |texts| && |Kept(texts)| == |texts| ==> !TrimsToEmpty(texts[i])
  {
    ChunkRules.NonBlankSnoc(texts, i);
    assert |texts[..i]| == i && |texts[..i + 1]| == i + 1;
    if i + 1 == |texts| {
      assert texts[..i + 1] == texts;
    }
  }

  /** A blank chunk text leaves the state as it is. */
  lemma SkipStep(env: BatchEnv, texts: seq<string>, i: nat, done: seq<ContentChunk>, batch: seq<string>, flushes: nat)
    requires Reachable(env, texts, i, done, batch, flushes) && i < |texts| && TrimsToEmpty(texts[i])
    ensures Reachable(env, texts, i + 1, done, batch, flushes)
  {
    KeptStep(texts, i);
  }

  /** A queued passage that does not trigger a flush. */
  lemma QueueStep(env: BatchEnv, texts: seq<string>, i: nat, done: seq<ContentChunk>, batch: seq<string>, flushes: nat)
    requires Reachable(env, texts, i, done, batch, flushes) && i < |texts| && !TrimsToEmpty(texts[i])
    requires |batch| + 1 < EmbeddingBatchSize && |done| + |batch| + 1 != |texts|
    requires !IsBlank(Prepare(env, texts[i]))
    ensures Reachable(env, texts, i + 1, done, batch + [Prepare(env, texts[i])], flushes)
  {
    KeptStep(texts, i);
    var after := Kept(texts[..i + 1]);
    var queued := batch + [Prepare(env, texts[i])];
    assert forall k :: 0 <= k < |queued| ==> queued[k] == Prepare(env, after[|done| + k]);
    assert AllNonBlank(queued) by {
      forall k | 0 <= k < |queued| ensures !IsBlank(queued[k]) {
        if k < |batch| {
          assert queued[k] == batch[k];
        }
      }
    }
  }

  /** A queued passage that triggers a flush, against a healthy service. */
  lemma FlushStep(env: BatchEnv, texts: seq<string>, i: nat, done: seq<ContentChunk>, batch: seq<string>,
                  flushes: nat, flushed: seq<ContentChunk>)
    requires Reachable(env, texts, i, done, batch, flushes) && i < |texts| && !TrimsToEmpty(texts[i])
    requires |batch| + 1 >= EmbeddingBatchSize || |done| + |batch| + 1 == |texts|
    requires |flushed| == |batch| + 1
    requires forall k :: 0 <= k < |flushed| ==> flushed[k].text == (batch + [Prepare(env, texts[i])])[k]
    ensures Reachable(env, texts, i + 1, done + flushed, [], flushes + 1)
  {
    KeptStep(texts, i);
    var after := Kept(texts[..i + 1]);
    var done' := done + flushed;
    forall k | 0 <= k < |done'| ensures done'[k].text == Prepare(env, after[k]) {
      if k >= |done| {
        assert done'[k] == flushed[k - |done|];
      }
    }
  }

  /** At the end the chunks made are the result. */
  lemma EndFacts(env: BatchEnv, texts: seq<string>, done: seq<ContentChunk>, batch: seq<string>, flushes: nat)
    requires Reachable(env, texts, |texts|, done, batch, flushes)
    ensures |done| == EmbeddedCount(texts)
    ensures forall k :: 0 <= k < |done| ==> done[k].text == Prepare(env, Kept(texts)[k])
  {
    assert texts[..|texts|] == texts;
  }

  /** What the loop makes against a healthy service: the chunks counted by EmbeddedCount, of the kept texts in order. */
  ghost predicate LoopFacts(env: BatchEnv, texts: seq<string>, r: Result<seq<ContentChunk>>) {
    && r.Ok? && |r.value| == EmbeddedCount(texts)
    && forall k :: 0 <= k < |r.value| ==> r.value[k].text == Prepare(env, Kept(texts)[k])
  }

  /** The loop from any reachable state, against a healthy service. */
  lemma {:induction false} EmbedLoopFacts(env: BatchEnv, texts: seq<string>, pageCount: int, i: nat,
                                          done: seq<ContentChunk>, batch: seq<string>,
                                          types: map<string, ContentType>, flushes: nat)
    requires Healthy(env.embed) && PreparedNonBlank(env, texts)
    requires Reachable(env, texts, i, done, batch, flushes)
    ensures LoopFacts(env, texts, EmbedLoop(env, texts, pageCount, i, done, batch, types))
    decreases |texts| - i, 1
  {
    if i == |texts| {
      EndFacts(env, texts, done, batch, flushes);
    } else if TrimsToEmpty(texts[i]) {
      SkipStep(env, texts, i, done, batch, flushes);
      EmbedLoopFacts(env, texts, pageCount, i + 1, done, batch, types, flushes);
    } else {
      QueuedFacts(env, texts, pageCount, i, done, batch, types, flushes);
    }
  }

  /** The loop from a reachable state whose next chunk text is queued, then possibly flushed. */
  lemma {:induction false} QueuedFacts(env: BatchEnv, texts: seq<string>, pageCount: int, i: nat,
                                       done: seq<ContentChunk>, batch: seq<string>,
                                       types: map<string, ContentType>, flushes: nat)
    requires Healthy(env.embed) && PreparedNonBlank(env, texts)
    requires Reachable(env, texts, i, done, batch, flushes)
    requires i < |texts| && !TrimsToEmpty(texts[i])
    ensures LoopFacts(env, texts, EmbedLoop(env, texts, pageCount, i, done, batch, types))
    decreases |texts| - i, 0
  {
    var t := env.detect(texts[i]);
    var content := env.format(texts[i], t);
    var queued := batch + [content];
    assert !IsBlank(content);
    assert AllNonBlank(queued) by {
      forall k | 0 <= k < |queued| ensures !IsBlank(queued[k]) {
        if k < |batch| {
          assert queued[k] == batch[k];
        }
      }
    }
    if |queued| >= EmbeddingBatchSize || |done| + |queued| == |texts| {
      FlushFacts(env, queued, types[content := t], pageCount);
      var flushed := FlushBatch(env, queued, types[content := t], pageCount).value;
      FlushStep(env, texts, i, done, batch, flushes, flushed);
      EmbedLoopFacts(env, texts, pageCount, i + 1, done + flushed, [], map[], flushes + 1);
      assert EmbedLoop(env, texts, pageCount, i, done, batch, types)
          == EmbedLoop(env, texts, pageCount, i + 1, done + flushed, [], map[]);
    } else {
      QueueStep(env, texts, i, done, batch, flushes);
      EmbedLoopFacts(env, texts, pageCount, i + 1, done, queued, types[content := t], flushes);
      assert EmbedLoop(env, texts, pageCount, i, done, batch, types)
          == EmbedLoop(env, texts, pageCount, i + 1, done, queued, types[content := t]);
    }
  }

  /**
   * Against a healthy service, and when isBlank() accepts every prepared
   * passage, the loop makes one chunk per non-blank text when no text is
   * blank, and otherwise only the full batches of 20: the count flush can
   * no longer happen, so the last partial batch is lost.
   */
  lemma EmbeddedFacts(env: BatchEnv, texts: seq<string>, pageCount: int)
    requires Healthy(env.embed) && PreparedNonBlank(env, texts)
    ensures Embedded(env, texts, pageCount).Ok?
    ensures |Embedded(env, texts, pageCount).value| == EmbeddedCount(texts)
    ensures forall k :: 0 <= k < |Embedded(env, texts, pageCount).value| ==>
              Embedded(env, texts, pageCount).value[k].text == Prepare(env, Kept(texts)[k])
  {
    assert texts[..0] == [];
    assert Reachable(env, texts, 0, [], [], 0);
    EmbedLoopFacts(env, texts, pageCount, 0, [], [], map[], 0);
  }

  /** With no blank chunk text, every chunk text is embedded, in order. */
  lemma NoBlankAllEmbedded(env: BatchEnv, texts: seq<string>, pageCount: int)
    requires Healthy(env.embed) && PreparedNonBlank(env, texts)
    requires forall k :: 0 <= k < |texts| ==> !TrimsToEmpty(texts[k])
    ensures Embedded(env, texts, pageCount).Ok?
    ensures |Embedded(env, texts, pageCount).value| == |texts|
    ensures forall k :: 0 <= k < |texts| ==> Embedded(env, texts, pageCount).value[k].text == Prepare(env, texts[k])
  {
    KeptAll(texts);
    EmbeddedFacts(env, texts, pageCount);
  }

  lemma {:induction false} KeptAll(texts: seq<string>)
    requires forall k :: 0 <= k < |texts| ==> !TrimsToEmpty(texts[k])
    ensures Kept(texts) == texts
    decreases |texts|
  {
    if |texts| > 0 {
      KeptAll(texts[..|texts| - 1]);
      assert texts == texts[..|texts| - 1] + [Last(texts)];
    }
  }

  /** One blank chunk text next to a single real one: no chunk is embedded at all. */
  lemma BlankTextDropsBatch(env: BatchEnv, pageCount: int)
    ensures Embedded(env, ["Results", ""], pageCount) == Ok([])
  {
    var texts := ["Results", ""];
    assert TrimsToEmpty(texts[1]);
    assert !TrimsToEmpty(texts[0]) by {
      assert texts[0][0] == 'R';
    }
  }

  /**
   * The blank skip of the loop never fires on the chunker's output: every
   * chunk text ends with a paragraph that trim() does not empty.
   */
  lemma ChunkedTextsKept(textChunks: seq<string>, pieces: seq<ChunkRules.Piece>, chunkSize: int,
                         detect: string -> ContentType)
    requires ChunkRules.Emitted(textChunks, pieces, chunkSize, detect)
    ensures Kept(textChunks) == textChunks && EmbeddedCount(textChunks) == |textChunks|
  {
    ChunkRules.EmittedNotBlank(textChunks, pieces, chunkSize, detect);
    KeptAll(textChunks);
  }

  /** generateEmbeddings over a client that always answers is a healthy service. */
  lemma BatchEnvHealthy(p: Ingestors)
    requires Embedding.Answers(p.client, p.batchMode)
    ensures Healthy(BatchEnvOf(p).embed)
  {
    forall b | AllNonBlank(b)
      ensures BatchEnvOf(p).embed(b).Ok? && |b| <= |BatchEnvOf(p).embed(b).value|
    {
      Embedding.AnswersAll(p.client, p.batchMode, b);
    }
  }

  /**
   * processDocument's embedding loop on the chunker's output, with a client
   * that always answers and prepared passages that isBlank() accepts:
   * every chunk text becomes a content chunk, in order.
   */
  lemma ChunkedTextsEmbedded(p: Ingestors, textChunks: seq<string>, pieces: seq<ChunkRules.Piece>, pageCount: int)
    requires Embedding.Answers(p.client, p.batchMode)
    requires ChunkRules.Emitted(textChunks, pieces, p.chunkSize, DetectOf(p))
    requires PreparedNonBlank(BatchEnvOf(p), textChunks)
    ensures Embedded(BatchEnvOf(p), textChunks, pageCount).Ok?
    ensures |Embedded(BatchEnvOf(p), textChunks, pageCount).value| == |textChunks|
    ensures forall k :: 0 <= k < |textChunks| ==>
              Embedded(BatchEnvOf(p), textChunks, pageCount).value[k].text == Prepare(BatchEnvOf(p), textChunks[k])
  {
    BatchEnvHealthy(p);
    ChunkRules.EmittedNotBlank(textChunks, pieces, p.chunkSize, DetectOf(p));
    NoBlankAllEmbedded(BatchEnvOf(p), textChunks, pageCount);
  }

  /**
   * A lone chunk text that trim() keeps but whose prepared form isBlank()
   * rejects: generateEmbeddings filters it out and answers with no vector,
   * so embeddings.get(0) throws.
   */
  lemma BlankPreparedFails(p: Ingestors, t: string, pageCount: int)
    requires !TrimsToEmpty(t) && IsBlank(Prepare(BatchEnvOf(p), t))
    ensures Embedded(BatchEnvOf(p), [t], pageCount) == Err(IndexOutOfBounds(0))
  {
    var c := Prepare(BatchEnvOf(p), t);
    Embedding.BlankTextsNeedNoRequest(p.client, p.batchMode, [c]);
    assert [t][0] == t;
  }

  /**
   * A chunk of eleven em spaces, the paragraph splitIntoParagraphs keeps
   * from such a page text, which the classifier calls neither code, a
   * formula nor a list (by its shape it is a heading), fails the upload
   * in the embedding loop.
   */
  lemma EmSpaceChunkFails(p: Ingestors, pageCount: int)
    requires var t := DetectOf(p)(PdfUtils.EmSpaces); !ContentUtils.IsCodeType(t) && t != MathFormula && t != List
    ensures PdfUtils.SplitIntoParagraphs(PdfUtils.EmSpaces) == [PdfUtils.EmSpaces]
    ensures Embedded(BatchEnvOf(p), [PdfUtils.EmSpaces], pageCount) == Err(IndexOutOfBounds(0))
  {
    var t := PdfUtils.EmSpaces;
    PdfUtils.EmSpacesParagraph();
    assert t[0] == '\U{2003}';
    assert !TrimsToEmpty(t);
    assert IsBlank(t) by {
      forall k | 0 <= k < |t| ensures IsJavaWhitespace(t[k]) {
        assert t[k] == '\U{2003}';
      }
    }
    assert Prepare(BatchEnvOf(p), t) == t;
    BlankPreparedFails(p, t, pageCount);
  }

  // ---------------------------------------------------------------------
  // Table passages and the stored form
  // ---------------------------------------------------------------------

  /**
   * The table passages: every table that does not trim to nothing is
   * embedded on its own and spans pages 1..pageCount; the first failure
   * is the result.
   */
  function TableChunks(client: Embedding.Client, tables: seq<string>, pageCount: int): (r: Result<seq<ContentChunk>>)
    ensures r.Ok? ==> |r.value| == |Kept(tables)|
    decreases |tables|
  {
    if |tables| == 0 then Ok([])
    else
      var init :- TableChunks(client, tables[..|tables| - 1], pageCount);
      var t := Last(tables);
      if TrimsToEmpty(t) then Ok(init)
      else
        var e :- Embedding.GenerateEmbedding(client, t);
        Ok(init + [ContentChunk(t, Some(e), 1, pageCount, Some(Table))])
  }

  /** Each table passage is a kept table, typed TABLE and spanning the document. */
  lemma {:induction false} TableChunksAt(client: Embedding.Client, tables: seq<string>, pageCount: int, k: nat)
    requires TableChunks(client, tables, pageCount).Ok? && k < |Kept(tables)|
    ensures var c := TableChunks(client, tables, pageCount).value[k];
      c.text == Kept(tables)[k] && c.startPage == 1 && c.endPage == pageCount && c.contentType == Some(Table)
      && c.embedding.Some? && Embedding.GenerateEmbedding(client, c.text) == Ok(c.embedding.value)
    decreases |tables|
  {
    var init := tables[..|tables| - 1];
    ChunkRules.NonBlankSnoc(tables, |tables| - 1);
    assert tables[..|tables| - 1 + 1] == tables;
    if k < |Kept(init)| {
      TableChunksAt(client, init, pageCount, k);
    }
  }

  /**
   * A table that trim() does not empty but that isBlank() rejects (here a
   * single em space) fails the whole upload inside generateEmbedding.
   */
  lemma EmSpaceTableFails(client: Embedding.Client, pageCount: int)
    ensures TableChunks(client, ["\U{2003}"], pageCount) == Err(ApplicationException("Text cannot be null or blank"))
  {
    var tables := ["\U{2003}"];
    assert tables[0][0] == '\U{2003}';
    assert !TrimsToEmpty(tables[0]);
    assert IsBlank(tables[0]);
    assert tables[..0] == [];
  }

  /** convertToTextChunkDto: text, embedding and type are copied; the page numbers are not. */
  function ConvertToTextChunkDto(c: ContentChunk): (r: TextChunk)
    ensures r.text == c.text && r.embedding == c.embedding && r.contentType == c.contentType
    ensures r.startPage == 0 && r.endPage == 0
  {
    TextChunk(c.text, c.embedding, 0, 0, c.contentType)
  }

  /** The stored chunks: each passage converted, in order. */
  function Converted(cs: seq<ContentChunk>): (r: seq<TextChunk>)
    ensures |r| == |cs|
    decreases |cs|
  {
    if |cs| == 0 then [] else Converted(cs[..|cs| - 1]) + [ConvertToTextChunkDto(Last(cs))]
  }

  lemma {:induction false} ConvertedAt(cs: seq<ContentChunk>, k: nat)
    requires k < |cs|
    ensures Converted(cs)[k] == ConvertToTextChunkDto(cs[k])
    decreases |cs|
  {
    if k < |cs| - 1 {
      ConvertedAt(cs[..|cs| - 1], k);
    }
  }

  lemma {:induction false} ConvertedAppend(a: seq<ContentChunk>, b: seq<ContentChunk>)
    ensures Converted(a + b) == Converted(a) + Converted(b)
    decreases |b|
  {
    if |b| == 0 {
      assert a + b == a;
    } else {
      var init := b[..|b| - 1];
      assert (a + b)[..|a + b| - 1] == a + init;
      ConvertedAppend(a, init);
    }
  }

  // ---------------------------------------------------------------------
  // What a failure reports
  // ---------------------------------------------------------------------

  /** Throwable.getMessage() of an exception of the core. */
  function MessageOf(e: Error): string
  {
    match e
    case ApplicationException(m) => m
    case IllegalArgument(m) => m
    // raised for the first index past a list, so the index is also the length
    case IndexOutOfBounds(i) => "Index " + IntToString(i) + " out of bounds for length " + IntToString(i)
    // a CompletionException built from its cause takes the cause's toString() as its message
    case CompletionException(c) => ClassName(c) + ": " + MessageOf(c)
  }

  function ClassName(e: Error): string
  {
    match e
    case ApplicationException(_) => "com.cgc.service.llm.exception.ApplicationException"
    case IllegalArgument(_) => "java.lang.IllegalArgumentException"
    case IndexOutOfBounds(_) => "java.lang.IndexOutOfBoundsException"
    case CompletionException(_) => "java.util.concurrent.CompletionException"
  }

  // ---------------------------------------------------------------------
  // processDocument's inputs and results
  // ---------------------------------------------------------------------

  /** What storing and reading the upload gives: storeFile's path, and the pages and tables extracted. */
  datatype Upload = Upload(storedPath: string, pageCount: nat, tables: seq<string>, pageTexts: seq<string>)

  /** What PDFBox and the extractors read from the upload: the page count, the tables and the page texts. */
  datatype Pdf = Pdf(pageCount: nat, tables: seq<string>, pageTexts: seq<string>)

  /**
   * The upload once it is copied to a temporary file (`tempCopy` is that
   * step's exception, if any), stored at `path` (unless storeFile's file
   * operations fail) and read: the first failure is the result.
   */
  function UploadOf(tempCopy: Option<Error>, copied: bool, pdf: Result<Pdf>, path: string): (r: Result<Upload>)
    ensures r.Ok? <==> tempCopy.None? && copied && pdf.Ok?
    ensures r.Ok? ==> r.value.storedPath == path && r.value.pageCount == pdf.value.pageCount
                      && r.value.tables == pdf.value.tables && r.value.pageTexts == pdf.value.pageTexts
    ensures tempCopy.Some? ==> r == Err(tempCopy.value)
    ensures tempCopy.None? && !copied ==> r == Err(ApplicationException(Storage.StoreFileFailure))
    ensures tempCopy.None? && copied && pdf.Err? ==> r == Err(pdf.error)
  {
    if tempCopy.Some? then Err(tempCopy.value)
    else if !copied then Err(ApplicationException(Storage.StoreFileFailure))
    else
      var d :- pdf;
      Ok(Upload(path, d.pageCount, d.tables, d.pageTexts))
  }

  /** The services processDocument calls, and the configured chunk size. */
  datatype Ingestors = Ingestors(
    client: Embedding.Client,
    batchMode: bool,
    matchers: ContentUtils.Matchers,
    headings: string -> seq<string>,
    chunkSize: int)

  /** ContentUtils.detectContentType with the given pattern and parser answers. */
  function DetectOf(p: Ingestors): string -> ContentType
  {
    t => ContentUtils.DetectContentType(t, p.matchers)
  }

  /** EmbeddingService.generateEmbeddings, detectContentType and formatContentByType. */
  function BatchEnvOf(p: Ingestors): BatchEnv
  {
    BatchEnv(texts => Embedding.Embeddings(p.client, p.batchMode, texts), DetectOf(p), ContentUtils.FormatContentByType)
  }

  /** The chunks processDocument stores: the table passages first, then the content passages, converted. */
  function StoredChunks(p: Ingestors, upload: Upload, textChunks: seq<string>): (r: Result<seq<TextChunk>>)
    ensures r.Ok? <==> TableChunks(p.client, upload.tables, upload.pageCount).Ok?
                       && Embedded(BatchEnvOf(p), textChunks, upload.pageCount).Ok?
    ensures r.Ok? ==>
      var all := TableChunks(p.client, upload.tables, upload.pageCount).value
                 + Embedded(BatchEnvOf(p), textChunks, upload.pageCount).value;
      |r.value| == |all| && forall k :: 0 <= k < |all| ==> r.value[k] == ConvertToTextChunkDto(all[k])
  {
    var tables :- TableChunks(p.client, upload.tables, upload.pageCount);
    var contents :- Embedded(BatchEnvOf(p), textChunks, upload.pageCount);
    ConvertedAll(tables + contents);
    Ok(Converted(tables + contents))
  }

  lemma ConvertedAll(cs: seq<ContentChunk>)
    ensures forall k :: 0 <= k < |cs| ==> Converted(cs)[k] == ConvertToTextChunkDto(cs[k])
  {
    forall k | 0 <= k < |cs| ensures Converted(cs)[k] == ConvertToTextChunkDto(cs[k]) {
      ConvertedAt(cs, k);
    }
  }

  /** The metadata record processDocument returns and stores. */
  function IngestedDocument(fileId: string, filename: string, upload: Upload, chunksCount: nat, elapsed: int)
    : (d: DocumentDto)
    ensures d.id == fileId && d.filename == filename && d.pageCount == upload.pageCount
    ensures d.storagePath == Some(upload.storedPath) && d.chunksCount == chunksCount && d.processedTime == elapsed
  {
    NewDocument(fileId, filename, upload.pageCount, upload.storedPath).(chunksCount := chunksCount, processedTime := elapsed)
  }

  /** The progress reported after the pages up to endPage are read: 10 plus up to 50. */
  function ExtractedProgress(endPage: nat, pageCount: nat): int
    requires pageCount > 0
  {
    10 + Quot(endPage * 50, pageCount)
  }

  /** The progress reported after a flush: 75 plus up to 20, never above 95. */
  function EmbeddedProgress(made: nat, total: nat): int
    requires total > 0
  {
    Storage.Min(95, 75 + Quot(made * 20, total))
  }

  /** More chunks made never lowers the reported progress, which stays in [75, 95]. */
  lemma EmbeddedProgressRises(before: nat, made: nat, total: nat)
    requires before <= made && total > 0
    ensures 75 <= EmbeddedProgress(before, total) <= EmbeddedProgress(made, total) <= 95
  {
    QuotMonotone(before * 20, made * 20, total);
  }

  /** A status history that kept `before` and added only values in [lo, hi], rising when `before` ended at most at lo. */
  ghost predicate Extends(before: seq<int>, after: seq<int>, lo: int, hi: int) {
    && |before| <= |after| && after[..|before|] == before
    && (forall k :: |before| <= k < |after| ==> lo <= after[k] <= hi)
    && (NonDecreasing(before) && |before| > 0 && Last(before) <= lo ==> NonDecreasing(after))
  }

  lemma ExtendsRefl(h: seq<int>, lo: int, hi: int)
    ensures Extends(h, h, lo, hi)
  {
  }

  /** Adding one value in [lo, hi] that is at least the last one. */
  lemma ExtendsSnoc(before: seq<int>, after: seq<int>, lo: int, hi: int, x: int)
    requires Extends(before, after, lo, hi) && lo <= x <= hi
    requires |after| > |before| ==> Last(after) <= x
    ensures Extends(before, after + [x], lo, hi)
  {
    assert (after + [x])[..|before|] == after[..|before|];
    if NonDecreasing(before) && |before| > 0 && Last(before) <= lo {
      if |after| == |before| {
        assert after == before;
      }
      NonDecreasingSnoc(after, x);
    }
  }

  /** Two extensions in a row, the second starting no lower than the first ends. */
  lemma ExtendsTrans(a: seq<int>, b: seq<int>, c: seq<int>, lo: int, hiB: int, mid: int, hi: int)
    requires Extends(a, b, lo, hiB) && Extends(b, c, mid, hi) && lo <= mid && hiB <= hi
    requires |b| > 0 && Last(b) <= mid
    ensures Extends(a, c, lo, hi)
  {
    assert c[..|a|] == c[..|b|][..|a|];
    forall k | |a| <= k < |c| ensures lo <= c[k] <= hi {
      if k < |b| {
        assert c[k] == b[k];
      }
    }
  }

  /** The two loops of processDocument that convert the table passages, then the content passages. */
  method ConvertChunks(tableChunks: seq<ContentChunk>, contentChunks: seq<ContentChunk>) returns (allChunks: seq<TextChunk>)
    ensures allChunks == Converted(tableChunks + contentChunks)
  {
    allChunks := [];
    for i := 0 to |tableChunks|
      invariant allChunks == Converted(tableChunks[..i])
    {
      assert tableChunks[..i + 1][..i] == tableChunks[..i];
      allChunks := allChunks + [ConvertToTextChunkDto(tableChunks[i])];
    }
    assert tableChunks + contentChunks[..0] == tableChunks[..|tableChunks|];
    for i := 0 to |contentChunks|
      invariant allChunks == Converted(tableChunks + contentChunks[..i])
    {
      assert (tableChunks + contentChunks[..i + 1])[..|tableChunks| + i] == tableChunks + contentChunks[..i];
      allChunks := allChunks + [ConvertToTextChunkDto(contentChunks[i])];
    }
    assert contentChunks[..|contentChunks|] == contentChunks;
  }

  // ---------------------------------------------------------------------
  // DocumentService
  // ---------------------------------------------------------------------

  /** The bookkeeping of DocumentService: upload statuses, uploads in flight, and the chunk cache. */
  class DocumentService {
    const storage: Storage.StorageService
    var processingStatus: map<string, ProcessingStatus>
    var activeProcessingCount: int
    /** documentChunksCache: a plain map that the model never evicts from (its size bound is listed as left out). */
    var documentChunksCache: map<string, seq<TextChunk>>

    ghost predicate Valid()
      reads this, storage
    {
      storage.Valid()
    }

    constructor(storage: Storage.StorageService)
      requires storage.Valid()
      ensures this.storage == storage && Valid()
      ensures processingStatus == map[] && activeProcessingCount == 0 && documentChunksCache == map[]
    {
      this.storage := storage;
      processingStatus := map[];
      activeProcessingCount := 0;
      documentChunksCache := map[];
    }

    /** updateProcessingStatus: the status of the id is updated; an unknown id changes nothing. */
    method UpdateProcessingStatus(documentId: string, progress: int, message: string, now: int)
      modifies if documentId in processingStatus then {processingStatus[documentId]} else {}
      ensures documentId in processingStatus ==>
        var s := processingStatus[documentId];
        && s.progress == progress && s.message == message && s.lastUpdated == now
        && s.history == old(s.history) + [progress] && s.Valid()
    {
      if documentId in processingStatus {
        var status := processingStatus[documentId];
        status.Update(progress, message, now);
      }
    }

    /** getProcessingStatus at time `now`. */
    function GetProcessingStatus(now: int): (r: StatusInfo)
      reads this, processingStatus.Values
      ensures r.activeProcessingCount == activeProcessingCount
      ensures r.totalDocumentsInProgress == |processingStatus|
      ensures forall id :: id in r.documents <==>
                id in processingStatus && Recent(processingStatus[id].progress, processingStatus[id].lastUpdated, now)
      ensures forall id :: id in r.documents ==> r.documents[id] == processingStatus[id]
    {
      var recent := map id | id in processingStatus
                             && Recent(processingStatus[id].progress, processingStatus[id].lastUpdated, now)
                          :: processingStatus[id];
      StatusInfo(activeProcessingCount, |processingStatus|,
                 |InState(recent.Keys, recent, Processing)|,
                 |InState(recent.Keys, recent, Completed)|,
                 |InState(recent.Keys, recent, Failed)|,
                 recent)
    }

    /** Every reported status is counted in exactly one group; none is reported that is not in the map. */
    lemma StatusCounts(now: int)
      ensures var r := GetProcessingStatus(now);
        && r.processing + r.completed + r.failed == |r.documents|
        && |r.documents| <= r.totalDocumentsInProgress
    {
      var r := GetProcessingStatus(now);
      var ids := r.documents.Keys;
      var p := InState(ids, r.documents, Processing);
      var c := InState(ids, r.documents, Completed);
      var f := InState(ids, r.documents, Failed);
      assert p !! c && p !! f && c !! f;
      assert p + c + f == ids;
      assert ids <= processingStatus.Keys;
      SubsetCard(ids, processingStatus.Keys);
    }

    /** A status still between 0 and 99 is reported however long ago it was updated. */
    lemma InProgressReported(now: int, id: string)
      requires id in processingStatus && 0 <= processingStatus[id].progress < 100
      ensures id in GetProcessingStatus(now).documents
      ensures StateOf(processingStatus[id].progress) == Processing
    {
    }

    /** documentChunksCache.get: a cached list, or one loaded from storage and then cached. */
    method CachedChunks(documentId: string) returns (r: Result<seq<TextChunk>>)
      requires Valid()
      modifies this, storage
      ensures Valid()
      ensures documentId in old(documentChunksCache) ==>
        r == Ok(old(documentChunksCache)[documentId]) && documentChunksCache == old(documentChunksCache)
      ensures documentId !in old(documentChunksCache) ==>
        documentChunksCache == (if r.Ok? then old(documentChunksCache)[documentId := r.value] else old(documentChunksCache))
      ensures documentId !in old(documentChunksCache) && old(storage.Coherent()) ==>
        r == Storage.LoadFrom(storage.chunkFiles, documentId, storage.chunkBatchSize)
      ensures storage.chunkFiles == old(storage.chunkFiles) && storage.metadataFiles == old(storage.metadataFiles)
      ensures old(storage.Coherent()) ==> storage.Coherent()
      ensures processingStatus == old(processingStatus) && activeProcessingCount == old(activeProcessingCount)
    {
      if documentId in documentChunksCache {
        return Ok(documentChunksCache[documentId]);
      }
      r := storage.LoadDocumentChunks(documentId);
      if r.Ok? {
        documentChunksCache := documentChunksCache[documentId := r.value];
      }
    }

    /**
     * removeDocument: false, changing nothing, when storage has no metadata
     * for the id; otherwise the status and the cached chunks are dropped and
     * storage deletes the document.
     */
    method RemoveDocument(documentId: string) returns (removed: bool)
      requires Valid()
      modifies this, storage
      ensures Valid()
      ensures removed <==> old(storage.MetadataView(documentId)).Some?
      ensures activeProcessingCount == old(activeProcessingCount)
      ensures !removed ==>
        && processingStatus == old(processingStatus) && documentChunksCache == old(documentChunksCache)
        && storage.chunkFiles == old(storage.chunkFiles) && storage.metadataFiles == old(storage.metadataFiles)
        && storage.storedFiles == old(storage.storedFiles)
        && storage.chunksCache == old(storage.chunksCache) && storage.metadataCache == old(storage.metadataCache)
      ensures removed ==>
        && processingStatus == old(processingStatus) - {documentId}
        && documentChunksCache == old(documentChunksCache) - {documentId}
        && storage.chunkFiles == Storage.WithoutPrefix(old(storage.chunkFiles), documentId)
        && storage.metadataFiles == old(storage.metadataFiles) - {Storage.MetaName(documentId)}
        && storage.storedFiles == (var path := old(storage.MetadataView(documentId)).value.storagePath;
                                   if path.Some? then old(storage.storedFiles) - {path.value} else old(storage.storedFiles))
        && storage.chunksCache == old(storage.chunksCache) - {documentId}
        && storage.metadataCache == old(storage.metadataCache) - {documentId}
    {
      var document := storage.GetDocumentMetadata(documentId);
      if document.None? {
        return false;
      }
      processingStatus := processingStatus - {documentId};
      if documentId in documentChunksCache {
        documentChunksCache := documentChunksCache - {documentId};
      }
      removed := storage.DeleteDocument(documentId);
    }

    /** removeAllDocuments: every status and cached list is dropped, then storage deletes every document. */
    method RemoveAllDocuments() returns (count: int)
      requires Valid()
      modifies this, storage
      ensures Valid()
      ensures processingStatus == map[] && documentChunksCache == map[]
      ensures activeProcessingCount == old(activeProcessingCount)
      ensures count == |Storage.MetaNames(old(storage.metadataFiles))|
      ensures forall n :: n in storage.metadataFiles <==> n in old(storage.metadataFiles) && !EndsWith(n, ".meta")
      ensures forall n :: n in storage.chunkFiles ==>
                n in old(storage.chunkFiles) && storage.chunkFiles[n] == old(storage.chunkFiles)[n]
      ensures forall n :: n in storage.chunkFiles <==>
                n in old(storage.chunkFiles) && !exists x :: Storage.MetaName(x) in old(storage.metadataFiles) && StartsWith(n, x)
      ensures storage.storedFiles == {} && storage.chunksCache == map[] && storage.metadataCache == map[]
    {
      processingStatus := map[];
      documentChunksCache := map[];
      count := storage.DeleteAllDocuments();
    }
 
    // -------------------------------------------------------------------
    // processDocument
    // -------------------------------------------------------------------

    /**
     * The page loop of processDocument: after each batch of 50 pages the
     * progress is 10 plus the share of pages read, out of 50.
     */
    method ReportExtraction(fileId: string, pageCount: nat, now: int)
      requires fileId in processingStatus
      modifies processingStatus[fileId]
      ensures var s := processingStatus[fileId];
        && Extends(old(s.history), s.history, 10, 60)
        && (pageCount == 0 ==> s.history == old(s.history) && s.progress == old(s.progress))
        && (pageCount > 0 ==> |s.history| > |old(s.history)| && s.progress == 60 && s.Valid())
    {
      var s := processingStatus[fileId];
      ghost var h0 := s.history;
      ExtendsRefl(h0, 10, 60);
      var i := 0;
      while i < pageCount
        invariant Extends(h0, s.history, 10, 60)
        invariant i == 0 ==> s.history == h0 && s.progress == old(s.progress)
        invariant i > 0 ==> pageCount > 0 && |s.history| > |h0| && s.Valid() && s.progress == ExtractedProgress(Storage.Min(i, pageCount), pageCount)
        decreases pageCount - i
      {
        var endPage := Storage.Min(i + PageBatchSize, pageCount);
        var progress := Quot(endPage * 50, pageCount);
        QuotAtMost(endPage * 50, pageCount, 50);
        if i > 0 {
          QuotMonotone(Storage.Min(i, pageCount) * 50, endPage * 50, pageCount);
        }
        ExtendsSnoc(h0, s.history, 10, 60, 10 + progress);
        UpdateProcessingStatus(fileId, 10 + progress,
          "Extracted " + IntToString(endPage) + "/" + IntToString(pageCount) + " pages", now);
        i := i + PageBatchSize;
      }
      if pageCount > 0 {
        QuotExact(50, pageCount);
        assert pageCount * 50 == 50 * pageCount;
      }
    }

    /** The inner loop of a flush: one chunk per queued passage, or the index error of embeddings.get(i). */
    method CollectBatch(contentChunks: seq<ContentChunk>, embeddingBatch: seq<string>, embeddings: seq<Vector>,
                        contentTypeMap: map<string, ContentType>, pageCount: int)
      returns (r: Result<seq<ContentChunk>>)
      ensures var b := BatchChunks(embeddingBatch, embeddings, contentTypeMap, pageCount);
        r == if b.Ok? then Ok(contentChunks + b.value) else Err(b.error)
    {
      var chunks := contentChunks;
      for i := 0 to |embeddingBatch|
        invariant i <= |embeddings|
        invariant BatchChunks(embeddingBatch[..i], embeddings, contentTypeMap, pageCount).Ok?
        invariant chunks == contentChunks + BatchChunks(embeddingBatch[..i], embeddings, contentTypeMap, pageCount).value
      {
        assert embeddingBatch[..i + 1][..i] == embeddingBatch[..i];
        var content := embeddingBatch[i];
        var contentType := TypeIn(contentTypeMap, content);
        if i >= |embeddings| {
          assert embeddingBatch[..|embeddingBatch|] == embeddingBatch;
          return Err(IndexOutOfBounds(i));
        }
        var embedding := embeddings[i];
        chunks := chunks + [ContentChunk(content, Some(embedding), 1, pageCount, contentType)];
      }
      assert embeddingBatch[..|embeddingBatch|] == embeddingBatch;
      r := Ok(chunks);
    }
 
    /** One flush of the embedding loop: the batch is embedded and made into chunks, then the progress is reported. */
    method FlushAndReport(fileId: string, contentChunks: seq<ContentChunk>, embeddingBatch: seq<string>,
                          contentTypeMap: map<string, ContentType>, env: BatchEnv, pageCount: int, total: nat, now: int)
      returns (r: Result<seq<ContentChunk>>)
      requires fileId in processingStatus && total > 0
      modifies processingStatus[fileId]
      ensures var f := FlushBatch(env, embeddingBatch, contentTypeMap, pageCount);
        r == if f.Ok? then Ok(contentChunks + f.value) else Err(f.error)
      ensures var s := processingStatus[fileId];
        && (r.Err? ==> s.history == old(s.history) && s.progress == old(s.progress) && s.lastUpdated == old(s.lastUpdated))
        && (r.Ok? ==> |r.value| == |contentChunks| + |embeddingBatch| && s.Valid() && s.lastUpdated == now
                      && s.history == old(s.history) + [EmbeddedProgress(|r.value|, total)])
    {
      var embeddings := env.embed(embeddingBatch);
      if embeddings.Err? {
        return Err(embeddings.error);
      }
      r := CollectBatch(contentChunks, embeddingBatch, embeddings.value, contentTypeMap, pageCount);
      if r.Err? {
        return;
      }
      var made := |r.value|;
      var progress := 75 + Quot(made * 20, total);
      UpdateProcessingStatus(fileId, Storage.Min(95, progress),
        "Created embeddings for " + IntToString(made) + "/" + IntToString(total) + " chunks", now);
    }

    /** The embedding loop of processDocument, reporting progress after each flush. */
    method EmbedTextChunks(fileId: string, textChunks: seq<string>, env: BatchEnv, pageCount: int, now: int)
      returns (r: Result<seq<ContentChunk>>)
      requires fileId in processingStatus
      modifies processingStatus[fileId]
      ensures r == Embedded(env, textChunks, pageCount)
      ensures var s := processingStatus[fileId];
        && Extends(old(s.history), s.history, 75, 95)
        && (|s.history| > |old(s.history)| ==> s.Valid() && s.lastUpdated == now)
        && (|s.history| == |old(s.history)| ==>
              s.history == old(s.history) && s.progress == old(s.progress) && s.lastUpdated == old(s.lastUpdated))
    {
      ghost var s := processingStatus[fileId];
      ghost var h0 := s.history;
      ExtendsRefl(h0, 75, 95);
      var contentChunks: seq<ContentChunk> := [];
      var batchCounter := 0;
      var embeddingBatch: seq<string> := [];
      var contentTypeMap: map<string, ContentType> := map[];
      for i := 0 to |textChunks|
        invariant batchCounter == |embeddingBatch|
        invariant EmbedLoop(env, textChunks, pageCount, i, contentChunks, embeddingBatch, contentTypeMap)
               == Embedded(env, textChunks, pageCount)
        invariant Extends(h0, s.history, 75, 95)
        invariant |contentChunks| + |embeddingBatch| <= i
        invariant |s.history| == |h0| ==> s.history == h0 && s.progress == old(s.progress) && s.lastUpdated == old(s.lastUpdated)
        invariant |s.history| > |h0| ==>
                    |textChunks| > 0 && s.Valid() && s.lastUpdated == now && Last(s.history) <= EmbeddedProgress(|contentChunks|, |textChunks|)
      {
        var chunkText := textChunks[i];
        if TrimsToEmpty(chunkText) {
          continue;
        }
        var contentType := env.detect(chunkText);
        var formattedContent := env.format(chunkText, contentType);
        embeddingBatch := embeddingBatch + [formattedContent];
        contentTypeMap := contentTypeMap[formattedContent := contentType];
        batchCounter := batchCounter + 1;
        if batchCounter >= EmbeddingBatchSize || |contentChunks| + batchCounter == |textChunks| {
          ghost var before := |contentChunks|;
          ghost var h1 := s.history;
          var made := FlushAndReport(fileId, contentChunks, embeddingBatch, contentTypeMap, env, pageCount, |textChunks|, now);
          if made.Err? {
            return Err(made.error);
          }
          contentChunks := made.value;
          embeddingBatch := [];
          contentTypeMap := map[];
          batchCounter := 0;
          EmbeddedProgressRises(before, |contentChunks|, |textChunks|);
          ExtendsSnoc(h0, h1, 75, 95, EmbeddedProgress(|contentChunks|, |textChunks|));
        }
      }
      r := Ok(contentChunks);
    }
 
    /**
     * The body of processDocument's try block once the upload is stored
     * and read: progress 10, the page loop, 60, the table passages, 70,
     * the semantic chunks, 75, the embedding loop, 95, then the chunks and
     * the metadata are stored and the progress is 100.
     */
    method Ingest(fileId: string, filename: string, upload: Upload, p: Ingestors, now: int, elapsed: int)
      returns (r: Result<DocumentDto>, ghost textChunks: seq<string>, ghost pieces: seq<ChunkRules.Piece>)
      requires Valid() && fileId in processingStatus
      modifies processingStatus[fileId], storage
      ensures Valid()
      ensures var s := processingStatus[fileId];
        && Extends(old(s.history), s.history, 10, 100) && s.Valid() && s.lastUpdated == now
        && (r.Ok? ==> s.progress == 100 && s.message == "Completed")
      ensures TableChunks(p.client, upload.tables, upload.pageCount).Ok? ==>
        && ChunkRules.Emitted(textChunks, pieces, p.chunkSize, DetectOf(p))
        && ChunkRules.Flatten(pieces) == ChunkRules.DocumentParagraphs(upload.pageTexts)
      ensures r.Ok? <==> StoredChunks(p, upload, textChunks).Ok?
      ensures r.Err? ==> r.error == StoredChunks(p, upload, textChunks).error && unchanged(storage)
      ensures r.Ok? ==>
        var chunks := StoredChunks(p, upload, textChunks).value;
        && r.value == IngestedDocument(fileId, filename, upload, |chunks|, elapsed)
        && storage.chunkFiles == Storage.Stored(old(storage.chunkFiles), fileId, chunks, storage.chunkBatchSize)
        && storage.metadataFiles == old(storage.metadataFiles)[Storage.MetaName(fileId) := r.value]
        && storage.storedFiles == old(storage.storedFiles)
        && (old(storage.Coherent()) ==> storage.Coherent())
    {
      ghost var s := processingStatus[fileId];
      ghost var h0 := s.history;
      var tableChunks := ReadTables(fileId, upload, p, now);
      if tableChunks.Err? {
        return Err(tableChunks.error), [], [];
      }
      ghost var h1 := s.history;
      r, textChunks, pieces := EmbedAndStore(fileId, filename, upload, p, tableChunks.value, now, elapsed);
      ExtendsTrans(h0, h1, s.history, 10, 60, 70, 100);
    }

    /** From progress 70 on: the semantic chunks, the embedding loop, then the stored chunks and metadata. */
    method EmbedAndStore(fileId: string, filename: string, upload: Upload, p: Ingestors,
                         tableChunks: seq<ContentChunk>, now: int, elapsed: int)
      returns (r: Result<DocumentDto>, ghost textChunks: seq<string>, ghost pieces: seq<ChunkRules.Piece>)
      requires Valid() && fileId in processingStatus
      modifies processingStatus[fileId], storage
      ensures Valid()
      ensures var s := processingStatus[fileId];
        && Extends(old(s.history), s.history, 70, 100) && s.Valid() && s.lastUpdated == now
        && |s.history| > |old(s.history)|
        && (r.Ok? ==> s.progress == 100 && s.message == "Completed")
      ensures ChunkRules.Emitted(textChunks, pieces, p.chunkSize, DetectOf(p))
      ensures ChunkRules.Flatten(pieces) == ChunkRules.DocumentParagraphs(upload.pageTexts)
      ensures var e := Embedded(BatchEnvOf(p), textChunks, upload.pageCount);
        && (r.Ok? <==> e.Ok?)
        && (r.Err? ==> r.error == e.error && unchanged(storage))
        && (r.Ok? ==>
             var chunks := Converted(tableChunks + e.value);
             && r.value == IngestedDocument(fileId, filename, upload, |chunks|, elapsed)
             && storage.chunkFiles == Storage.Stored(old(storage.chunkFiles), fileId, chunks, storage.chunkBatchSize)
             && storage.metadataFiles == old(storage.metadataFiles)[Storage.MetaName(fileId) := r.value]
             && storage.storedFiles == old(storage.storedFiles)
             && (old(storage.Coherent()) ==> storage.Coherent()))
    {
      ghost var s := processingStatus[fileId];
      ghost var h0 := s.history;
      var contentChunks;
      contentChunks, textChunks, pieces := ChunkAndEmbed(fileId, upload, p, now);
      if contentChunks.Err? {
        return Err(contentChunks.error), textChunks, pieces;
      }
      ghost var h1 := s.history;
      var document := Finish(fileId, filename, upload, tableChunks, contentChunks.value, now, elapsed);
      ExtendsTrans(h0, h1, s.history, 70, 95, 95, 100);
      r := Ok(document);
    }

    /** Progress 95, the chunks and the metadata are stored, then progress 100. */
    method Finish(fileId: string, filename: string, upload: Upload, tableChunks: seq<ContentChunk>,
                  contentChunks: seq<ContentChunk>, now: int, elapsed: int)
      returns (document: DocumentDto)
      requires Valid() && fileId in processingStatus
      modifies processingStatus[fileId], storage
      ensures Valid()
      ensures var s := processingStatus[fileId];
        && Extends(old(s.history), s.history, 95, 100) && s.Valid() && s.lastUpdated == now
        && |s.history| > |old(s.history)| && s.progress == 100 && s.message == "Completed"
      ensures var chunks := Converted(tableChunks + contentChunks);
        && document == IngestedDocument(fileId, filename, upload, |chunks|, elapsed)
        && storage.chunkFiles == Storage.Stored(old(storage.chunkFiles), fileId, chunks, storage.chunkBatchSize)
        && storage.metadataFiles == old(storage.metadataFiles)[Storage.MetaName(fileId) := document]
        && storage.storedFiles == old(storage.storedFiles)
        && (old(storage.Coherent()) ==> storage.Coherent())
    {
      ghost var s := processingStatus[fileId];
      ghost var h0 := s.history;
      ExtendsRefl(h0, 95, 100);
      ExtendsSnoc(h0, h0, 95, 100, 95);
      UpdateProcessingStatus(fileId, 95, "Finalizing document", now);
      ghost var h1 := s.history;
      document := StoreIngested(fileId, filename, upload, tableChunks, contentChunks, elapsed);
      ExtendsSnoc(h0, h1, 95, 100, 100);
      UpdateProcessingStatus(fileId, 100, "Completed", now);
    }

    /** The chunks are converted and stored, then the metadata record. */
    method StoreIngested(fileId: string, filename: string, upload: Upload, tableChunks: seq<ContentChunk>,
                         contentChunks: seq<ContentChunk>, elapsed: int)
      returns (document: DocumentDto)
      requires storage.Valid()
      modifies storage
      ensures storage.Valid()
      ensures var chunks := Converted(tableChunks + contentChunks);
        && document == IngestedDocument(fileId, filename, upload, |chunks|, elapsed)
        && storage.chunkFiles == Storage.Stored(old(storage.chunkFiles), fileId, chunks, storage.chunkBatchSize)
        && storage.metadataFiles == old(storage.metadataFiles)[Storage.MetaName(fileId) := document]
        && storage.storedFiles == old(storage.storedFiles)
        && (old(storage.Coherent()) ==> storage.Coherent())
    {
      var allChunks := ConvertChunks(tableChunks, contentChunks);
      document := IngestedDocument(fileId, filename, upload, |allChunks|, elapsed);
      storage.StoreDocumentChunks(document.id, allChunks);
      storage.StoreDocumentMetadata(document);
    }

    /** Progress 10, the page loop, progress 60, then the table passages. */
    method ReadTables(fileId: string, upload: Upload, p: Ingestors, now: int) returns (r: Result<seq<ContentChunk>>)
      requires fileId in processingStatus
      modifies processingStatus[fileId]
      ensures r == TableChunks(p.client, upload.tables, upload.pageCount)
      ensures var s := processingStatus[fileId];
        && Extends(old(s.history), s.history, 10, 60) && s.Valid() && s.lastUpdated == now && Last(s.history) == 60
    {
      ghost var s := processingStatus[fileId];
      ghost var h0 := s.history;
      ExtendsRefl(h0, 10, 60);
      ExtendsSnoc(h0, h0, 10, 60, 10);
      UpdateProcessingStatus(fileId, 10, "Extracting content", now);
      ghost var h1 := s.history;
      ReportExtraction(fileId, upload.pageCount, now);
      ExtendsTrans(h0, h1, s.history, 10, 60, 10, 60);
      ExtendsSnoc(h0, s.history, 10, 60, 60);
      UpdateProcessingStatus(fileId, 60, "Processing tables", now);
      r := TableChunks(p.client, upload.tables, upload.pageCount);
    }

    /** Progress 70, the semantic chunks, progress 75, then the embedding loop. */
    method ChunkAndEmbed(fileId: string, upload: Upload, p: Ingestors, now: int)
      returns (r: Result<seq<ContentChunk>>, ghost textChunks: seq<string>, ghost pieces: seq<ChunkRules.Piece>)
      requires fileId in processingStatus
      modifies processingStatus[fileId]
      ensures r == Embedded(BatchEnvOf(p), textChunks, upload.pageCount)
      ensures ChunkRules.Emitted(textChunks, pieces, p.chunkSize, DetectOf(p))
      ensures ChunkRules.Flatten(pieces) == ChunkRules.DocumentParagraphs(upload.pageTexts)
      ensures var s := processingStatus[fileId];
        && Extends(old(s.history), s.history, 70, 95) && s.Valid() && s.lastUpdated == now
        && |s.history| > |old(s.history)|
    {
      ghost var s := processingStatus[fileId];
      ghost var h0 := s.history;
      var chunks;
      chunks, pieces := GenerateChunks(fileId, upload, p, now);
      textChunks := chunks;
      ghost var h1 := s.history;
      r := EmbedTextChunks(fileId, chunks, BatchEnvOf(p), upload.pageCount, now);
      ExtendsTrans(h0, h1, s.history, 70, 75, 75, 95);
    }

    /** Progress 70, the semantic chunks, then progress 75. */
    method GenerateChunks(fileId: string, upload: Upload, p: Ingestors, now: int)
      returns (textChunks: seq<string>, ghost pieces: seq<ChunkRules.Piece>)
      requires fileId in processingStatus
      modifies processingStatus[fileId]
      ensures ChunkRules.Emitted(textChunks, pieces, p.chunkSize, DetectOf(p))
      ensures ChunkRules.Flatten(pieces) == ChunkRules.DocumentParagraphs(upload.pageTexts)
      ensures var s := processingStatus[fileId];
        && Extends(old(s.history), s.history, 70, 75) && s.Valid() && s.lastUpdated == now
        && |s.history| > |old(s.history)| && s.progress == 75
    {
      ghost var s := processingStatus[fileId];
      ghost var h0 := s.history;
      ExtendsRefl(h0, 70, 75);
      ExtendsSnoc(h0, h0, 70, 75, 70);
      UpdateProcessingStatus(fileId, 70, "Generating semantic chunks", now);
      textChunks, pieces := SemanticChunker.GenerateSemanticChunks(upload.pageTexts, p.chunkSize, DetectOf(p), p.headings);
      ExtendsSnoc(h0, s.history, 70, 75, 75);
      UpdateProcessingStatus(fileId, 75, "Creating embeddings", now);
    }

    /**
     * processDocument, with `fileId` the generated UUID, `now` the clock
     * and `elapsed` the measured processing time: a new status at 0, one
     * more upload in flight, the ingestion, and on failure the status -1
     * with the exception's message; the in-flight count is restored. The
     * copy storeFile makes stays in the files directory whatever happens
     * after it.
     */
    method ProcessDocument(fileId: string, filename: string, tempCopy: Option<Error>, copied: bool, pdf: Result<Pdf>,
                           p: Ingestors, now: int, elapsed: int)
      returns (r: Result<DocumentDto>, upload: Result<Upload>, ghost textChunks: seq<string>,
               ghost pieces: seq<ChunkRules.Piece>)
      requires Valid()
      modifies this, storage
      ensures Valid()
      ensures activeProcessingCount == old(activeProcessingCount)
      ensures documentChunksCache == old(documentChunksCache)
      ensures fileId in processingStatus && fresh(processingStatus[fileId])
      ensures processingStatus == old(processingStatus)[fileId := processingStatus[fileId]]
      ensures var s := processingStatus[fileId];
        && s.filename == filename && s.lastUpdated == now && s.Valid() && s.history[0] == 0
        && (r.Ok? ==> s.progress == 100 && s.message == "Completed" && NonDecreasing(s.history) && Within(s.history, 0, 100))
        && (r.Err? ==> s.progress == -1 && s.message == "Failed: " + MessageOf(r.error)
                       && NonDecreasing(s.history[..|s.history| - 1]) && Within(s.history[..|s.history| - 1], 0, 100))
      ensures upload == UploadOf(tempCopy, copied, pdf, Storage.FilePath(storage.basePath, filename))
      ensures storage.storedFiles == if tempCopy.None? && copied
                                     then old(storage.storedFiles) + {Storage.FilePath(storage.basePath, filename)}
                                     else old(storage.storedFiles)
      ensures r.Ok? <==> upload.Ok? && StoredChunks(p, upload.value, textChunks).Ok?
      ensures r.Err? ==>
        && storage.chunkFiles == old(storage.chunkFiles) && storage.metadataFiles == old(storage.metadataFiles)
        && storage.chunksCache == old(storage.chunksCache) && storage.metadataCache == old(storage.metadataCache)
      ensures r.Err? ==> r.error == if upload.Err? then upload.error else StoredChunks(p, upload.value, textChunks).error
      ensures r.Ok? ==>
        var chunks := StoredChunks(p, upload.value, textChunks).value;
        && r.value == IngestedDocument(fileId, filename, upload.value, |chunks|, elapsed)
        && storage.chunkFiles == Storage.Stored(old(storage.chunkFiles), fileId, chunks, storage.chunkBatchSize)
        && storage.metadataFiles == old(storage.metadataFiles)[Storage.MetaName(fileId) := r.value]
        && (old(storage.Coherent()) ==> storage.Coherent())
      ensures upload.Ok? && TableChunks(p.client, upload.value.tables, upload.value.pageCount).Ok? ==>
        && ChunkRules.Emitted(textChunks, pieces, p.chunkSize, DetectOf(p))
        && ChunkRules.Flatten(pieces) == ChunkRules.DocumentParagraphs(upload.value.pageTexts)
    {
      var status := new ProcessingStatus(filename, 0, "Starting", now);
      processingStatus := processingStatus[fileId := status];
      activeProcessingCount := activeProcessingCount + 1;
      upload := ReceiveUpload(filename, tempCopy, copied, pdf);
      r, textChunks, pieces := Attempt(fileId, filename, upload, p, now, elapsed);
      activeProcessingCount := activeProcessingCount - 1;
    }

    /** The temporary copy, storeFile and the reading of the PDF, up to the first failure. */
    method ReceiveUpload(filename: string, tempCopy: Option<Error>, copied: bool, pdf: Result<Pdf>)
      returns (upload: Result<Upload>)
      requires Valid()
      modifies storage
      ensures Valid() && (old(storage.Coherent()) ==> storage.Coherent())
      ensures upload == UploadOf(tempCopy, copied, pdf, Storage.FilePath(storage.basePath, filename))
      ensures storage.storedFiles == if tempCopy.None? && copied
                                     then old(storage.storedFiles) + {Storage.FilePath(storage.basePath, filename)}
                                     else old(storage.storedFiles)
      ensures storage.chunkFiles == old(storage.chunkFiles) && storage.metadataFiles == old(storage.metadataFiles)
      ensures storage.chunksCache == old(storage.chunksCache) && storage.metadataCache == old(storage.metadataCache)
      ensures storage.writes == old(storage.writes)
    {
      if tempCopy.Some? {
        return Err(tempCopy.value);
      }
      var path := storage.StoreFile(filename, copied);
      if path.Err? {
        return Err(path.error);
      }
      if pdf.Err? {
        return Err(pdf.error);
      }
      upload := Ok(Upload(path.value, pdf.value.pageCount, pdf.value.tables, pdf.value.pageTexts));
    }

    /** processDocument's try block and its catch: the ingestion, or the status -1 with the failure's message. */
    method Attempt(fileId: string, filename: string, upload: Result<Upload>, p: Ingestors, now: int, elapsed: int)
      returns (r: Result<DocumentDto>, ghost textChunks: seq<string>, ghost pieces: seq<ChunkRules.Piece>)
      requires Valid() && fileId in processingStatus && processingStatus[fileId].history == [0]
      modifies processingStatus[fileId], storage
      ensures Valid()
      ensures var s := processingStatus[fileId];
        && s.Valid() && s.history[0] == 0
        && (r.Ok? ==> s.progress == 100 && s.message == "Completed" && s.lastUpdated == now
                      && NonDecreasing(s.history) && Within(s.history, 0, 100))
        && (r.Err? ==> s.progress == -1 && s.message == "Failed: " + MessageOf(r.error) && s.lastUpdated == now
                       && NonDecreasing(s.history[..|s.history| - 1]) && Within(s.history[..|s.history| - 1], 0, 100))
      ensures r.Ok? <==> upload.Ok? && StoredChunks(p, upload.value, textChunks).Ok?
      ensures r.Err? ==> unchanged(storage)
      ensures r.Err? ==> r.error == if upload.Err? then upload.error else StoredChunks(p, upload.value, textChunks).error
      ensures r.Ok? ==>
        var chunks := StoredChunks(p, upload.value, textChunks).value;
        && r.value == IngestedDocument(fileId, filename, upload.value, |chunks|, elapsed)
        && storage.chunkFiles == Storage.Stored(old(storage.chunkFiles), fileId, chunks, storage.chunkBatchSize)
        && storage.metadataFiles == old(storage.metadataFiles)[Storage.MetaName(fileId) := r.value]
        && storage.storedFiles == old(storage.storedFiles)
        && (old(storage.Coherent()) ==> storage.Coherent())
      ensures upload.Ok? && TableChunks(p.client, upload.value.tables, upload.value.pageCount).Ok? ==>
        && ChunkRules.Emitted(textChunks, pieces, p.chunkSize, DetectOf(p))
        && ChunkRules.Flatten(pieces) == ChunkRules.DocumentParagraphs(upload.value.pageTexts)
    {
      ghost var status := processingStatus[fileId];
      if upload.Err? {
        r, textChunks, pieces := Err(upload.error), [], [];
      } else {
        r, textChunks, pieces := Ingest(fileId, filename, upload.value, p, now, elapsed);
      }
      ghost var h := status.history;
      assert Within(h, 0, 100) && NonDecreasing(h) by {
        if upload.Ok? {
          assert h[..1] == [0];
        }
      }
      if r.Err? {
        UpdateProcessingStatus(fileId, -1, "Failed: " + MessageOf(r.error), now);
        assert status.history[..|status.history| - 1] == h;
      }
    }
  }
}
