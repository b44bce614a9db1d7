/**
 * StorageService: the chunk store. Passages of a document are written in
 * batches of chunkBatchSize records named `<id>_<offset>.chunks`, followed by
 * an index record `<id>_index.meta` holding their count; metadata records are
 * `<id>.meta`; uploaded files live in the files directory. Two caches (chunk
 * lists and metadata by id) sit in front of the records when caching is on.
 */
module Storage {
  import opened Dto
  import opened JavaStrings

  /** What a record of the chunks directory holds: a serialized batch or a serialized count. */
  datatype ChunkRecord = Batch(chunks: seq<TextChunk>) | Count(n: int)

  /** The record of the batch starting at an offset. */
  function BatchName(id: string, offset: nat): string
  {
    id + "_" + NatToString(offset) + ".chunks"
  }

  /** The index record. */
  function IndexName(id: string): string
  {
    id + "_index.meta"
  }

  /** The metadata record. */
  function MetaName(id: string): string
  {
    id + ".meta"
  }

  const LoadFailure: string := "Failed to load document chunks for ID: "
  const StoreFileFailure: string := "Failed to store file"

  /** Where storeFile puts an upload: the files directory under the base path, by the upload's original name. */
  function FilePath(basePath: string, originalFilename: string): string
  {
    basePath + "/files/" + originalFilename
  }

  /** Two uploads get the same path string exactly when their original names are equal; the later copy replaces the earlier. */
  lemma FilePathInjective(basePath: string, a: string, b: string)
    ensures FilePath(basePath, a) == FilePath(basePath, b) <==> a == b
  {
    var n := |basePath| + 7;
    assert FilePath(basePath, a)[n..] == a;
    assert FilePath(basePath, b)[n..] == b;
  }

  function Min(a: int, b: int): int
  {
    if a <= b then a else b
  }

  // ---------------------------------------------------------------------
  // Record names
  // ---------------------------------------------------------------------

  predicate AllDigits(s: string)
  {
    forall k :: 0 <= k < |s| ==> IsDigit(s[k])
  }

  /** In `a_d` with d all digits, the '_' after a is the last one. */
  lemma LastUnderscore(a: string, d: string)
    requires AllDigits(d)
    ensures var s := a + "_" + d; s[|a|] == '_' && forall k :: |a| < k < |s| ==> s[k] != '_'
  {
    var s := a + "_" + d;
    forall k | |a| < k < |s| ensures s[k] != '_' {
      assert s[k] == d[k - |a| - 1];
    }
  }

  /** A name `a_d` with d all digits determines a and d, since d holds no '_'. */
  lemma UnderscoreDigits(a: string, d: string, b: string, e: string)
    requires AllDigits(d) && AllDigits(e)
    requires a + "_" + d == b + "_" + e
    ensures a == b && d == e
  {
    var s := a + "_" + d;
    LastUnderscore(a, d);
    LastUnderscore(b, e);
    assert |a| == |b|;
    assert a == s[..|a|] == b;
    assert d == s[|a| + 1..] == e;
  }

  /** Batch records of different documents or offsets have different names. */
  lemma BatchNameInjective(a: string, i: nat, b: string, j: nat)
    ensures BatchName(a, i) == BatchName(b, j) ==> a == b && i == j
  {
    if BatchName(a, i) == BatchName(b, j) {
      var s := BatchName(a, i);
      assert s[..|s| - 7] == a + "_" + NatToString(i);
      assert s[..|s| - 7] == b + "_" + NatToString(j);
      UnderscoreDigits(a, NatToString(i), b, NatToString(j));
      NatToStringInjective(i, j);
    }
  }

  /** An index record is never a batch record. */
  lemma IndexNotBatch(a: string, b: string, j: nat)
    ensures IndexName(a) != BatchName(b, j)
  {
    var s := IndexName(a);
    var t := BatchName(b, j);
    assert s[|s| - 1] == 'a';
    assert t[|t| - 1] == 's';
  }

  lemma IndexNameInjective(a: string, b: string)
    ensures IndexName(a) == IndexName(b) ==> a == b
  {
    if IndexName(a) == IndexName(b) {
      assert a == IndexName(a)[..|a|];
    }
  }

  /** The batch record names of one document, by offset. */
  function BatchKey(id: string): nat -> string
  {
    (offset: nat) => BatchName(id, offset)
  }

  /** Different offsets name different records. */
  ghost predicate Injective(key: nat -> string)
  {
    forall i: nat, j: nat :: key(i) == key(j) ==> i == j
  }

  /** No batch record has the given name. */
  ghost predicate Avoids(key: nat -> string, name: string)
  {
    forall j: nat :: key(j) != name
  }

  lemma BatchKeyFacts(id: string)
    ensures Injective(BatchKey(id)) && Avoids(BatchKey(id), IndexName(id))
  {
    forall i: nat, j: nat ensures BatchKey(id)(i) == BatchKey(id)(j) ==> i == j {
      BatchNameInjective(id, i, id, j);
    }
    forall j: nat ensures BatchKey(id)(j) != IndexName(id) {
      IndexNotBatch(id, id, j);
    }
  }

  /** The records of two different documents have different names. */
  lemma NamesApart(id: string, other: string)
    requires id != other
    ensures forall j: nat, k: nat :: BatchKey(id)(j) != BatchKey(other)(k)
    ensures Avoids(BatchKey(id), IndexName(other)) && Avoids(BatchKey(other), IndexName(id))
    ensures IndexName(id) != IndexName(other)
  {
    forall j: nat, k: nat ensures BatchKey(id)(j) != BatchKey(other)(k) {
      BatchNameInjective(id, j, other, k);
    }
    forall j: nat ensures BatchKey(id)(j) != IndexName(other) && BatchKey(other)(j) != IndexName(id) {
      IndexNotBatch(other, id, j);
      IndexNotBatch(id, other, j);
    }
    IndexNameInjective(id, other);
  }

  // ---------------------------------------------------------------------
  // storeDocumentChunks and loadDocumentChunks, on the records
  // ---------------------------------------------------------------------

  /** The chunk records once the batches from offset i on have been written under their keys. */
  function StoredBatches(files: map<string, ChunkRecord>, key: nat -> string, chunks: seq<TextChunk>, size: nat, i: nat)
    : map<string, ChunkRecord>
    requires size > 0
    decreases |chunks| - i
  {
    if i >= |chunks| then files
    else StoredBatches(files[key(i) := Batch(chunks[i..Min(i + size, |chunks|)])], key, chunks, size, i + size)
  }

  /** The chunk records after storeDocumentChunks: every batch, then the index. */
  function Stored(files: map<string, ChunkRecord>, id: string, chunks: seq<TextChunk>, size: nat): map<string, ChunkRecord>
    requires size > 0
  {
    StoredBatches(files, BatchKey(id), chunks, size, 0)[IndexName(id) := Count(|chunks|)]
  }

  /** The names of the batch records written from offset i on, in order. */
  function BatchWrites(key: nat -> string, n: nat, size: nat, i: nat): seq<string>
    requires size > 0
    decreases n - i
  {
    if i >= n then [] else [key(i)] + BatchWrites(key, n, size, i + size)
  }

  /** The batches at offsets i, i + size, ... below n, concatenated; a missing or mistyped record is the failure. */
  function ReadBatches(files: map<string, ChunkRecord>, key: nat -> string, size: nat, i: nat, n: int, failure: Error)
    : (r: Result<seq<TextChunk>>)
    requires size > 0
    ensures r.Err? ==> r.error == failure
    decreases if i < n then n - i else 0
  {
    if i >= n then Ok([])
    else if key(i) in files && files[key(i)].Batch? then
      var rest :- ReadBatches(files, key, size, i + size, n, failure);
      Ok(files[key(i)].chunks + rest)
    else Err(failure)
  }

  /** loadDocumentChunks past the cache: read the count from the index, then the batches below it. */
  function LoadFrom(files: map<string, ChunkRecord>, id: string, size: nat): (r: Result<seq<TextChunk>>)
    requires size > 0
    ensures r.Err? ==> r.error == ApplicationException(LoadFailure + id)
  {
    if IndexName(id) in files && files[IndexName(id)].Count? then
      ReadBatches(files, BatchKey(id), size, 0, files[IndexName(id)].n, ApplicationException(LoadFailure + id))
    else Err(ApplicationException(LoadFailure + id))
  }

  /** Writing the batches from offset s on touches no name other than their keys from s on. */
  lemma {:induction false} StoredBatchesKeep(files: map<string, ChunkRecord>, key: nat -> string, chunks: seq<TextChunk>,
                                            size: nat, s: nat, name: string)
    requires size > 0
    requires forall j: nat :: j >= s ==> name != key(j)
    ensures var f := StoredBatches(files, key, chunks, size, s);
      (name in f <==> name in files) && (name in files ==> f[name] == files[name])
    decreases |chunks| - s
  {
    if s < |chunks| {
      var g := files[key(s) := Batch(chunks[s..Min(s + size, |chunks|)])];
      StoredBatchesKeep(g, key, chunks, size, s + size, name);
    }
  }

  /** The round trip from offset s on, whatever the records held before. */
  lemma {:induction false} ReadStored(files: map<string, ChunkRecord>, key: nat -> string, index: string,
                                     chunks: seq<TextChunk>, size: nat, s: nat, failure: Error)
    requires size > 0 && Injective(key) && Avoids(key, index)
    ensures var g := StoredBatches(files, key, chunks, size, s)[index := Count(|chunks|)];
      ReadBatches(g, key, size, s, |chunks|, failure) == Ok(if s >= |chunks| then [] else chunks[s..])
    decreases |chunks| - s
  {
    if s < |chunks| {
      var n := |chunks|;
      var batch := chunks[s..Min(s + size, n)];
      var files' := files[key(s) := Batch(batch)];
      var g := StoredBatches(files', key, chunks, size, s + size)[index := Count(n)];
      ReadStored(files', key, index, chunks, size, s + size, failure);
      StoredBatchesKeep(files', key, chunks, size, s + size, key(s));
      assert g[key(s)] == Batch(batch);
      assert batch + (if s + size >= n then [] else chunks[s + size..]) == chunks[s..];
    }
  }

  /** Load after store gives back the stored list, in order; stale records of a longer earlier list are ignored. */
  lemma RoundTrip(files: map<string, ChunkRecord>, id: string, chunks: seq<TextChunk>, size: nat)
    requires size > 0
    ensures LoadFrom(Stored(files, id, chunks, size), id, size) == Ok(chunks)
  {
    BatchKeyFacts(id);
    ReadStored(files, BatchKey(id), IndexName(id), chunks, size, 0, ApplicationException(LoadFailure + id));
  }

  /** The batch writes are the keys from offset i on; none of them is the index, which is written after them. */
  lemma {:induction false} IndexWrittenLast(key: nat -> string, index: string, n: nat, size: nat, i: nat)
    requires size > 0 && Avoids(key, index)
    ensures index !in BatchWrites(key, n, size, i)
    ensures forall w :: w in BatchWrites(key, n, size, i) ==> exists j: nat :: j >= i && w == key(j)
    decreases n - i
  {
    if i < n {
      IndexWrittenLast(key, index, n, size, i + size);
    }
  }

  /** The records a document's load reads agree in two record sets. */
  ghost predicate AgreeOn(f: map<string, ChunkRecord>, g: map<string, ChunkRecord>, key: nat -> string, index: string)
  {
    && (index in f <==> index in g)
    && (index in f ==> f[index] == g[index])
    && (forall j: nat :: key(j) in f <==> key(j) in g)
    && (forall j: nat :: key(j) in f ==> f[key(j)] == g[key(j)])
  }

  lemma {:induction false} ReadAgrees(f: map<string, ChunkRecord>, g: map<string, ChunkRecord>, key: nat -> string, index: string,
                                     size: nat, i: nat, n: int, failure: Error)
    requires size > 0 && AgreeOn(f, g, key, index)
    ensures ReadBatches(f, key, size, i, n, failure) == ReadBatches(g, key, size, i, n, failure)
    decreases if i < n then n - i else 0
  {
    if i < n {
      ReadAgrees(f, g, key, index, size, i + size, n, failure);
    }
  }

  lemma LoadAgrees(f: map<string, ChunkRecord>, g: map<string, ChunkRecord>, id: string, size: nat)
    requires size > 0 && AgreeOn(f, g, BatchKey(id), IndexName(id))
    ensures LoadFrom(f, id, size) == LoadFrom(g, id, size)
  {
    if IndexName(id) in f && f[IndexName(id)].Count? {
      ReadAgrees(f, g, BatchKey(id), IndexName(id), size, 0, f[IndexName(id)].n, ApplicationException(LoadFailure + id));
    }
  }

  /** Storing one document's passages leaves what every other document loads unchanged. */
  lemma StoreKeepsOthers(files: map<string, ChunkRecord>, id: string, chunks: seq<TextChunk>, size: nat, other: string)
    requires size > 0 && other != id
    ensures LoadFrom(Stored(files, id, chunks, size), other, size) == LoadFrom(files, other, size)
  {
    var f := Stored(files, id, chunks, size);
    var key := BatchKey(id);
    NamesApart(id, other);
    StoredBatchesKeep(files, key, chunks, size, 0, IndexName(other));
    forall k: nat ensures (BatchKey(other)(k) in f <==> BatchKey(other)(k) in files)
      && (BatchKey(other)(k) in files ==> f[BatchKey(other)(k)] == files[BatchKey(other)(k)])
    {
      StoredBatchesKeep(files, key, chunks, size, 0, BatchKey(other)(k));
    }
    LoadAgrees(f, files, other, size);
  }

  // ---------------------------------------------------------------------
  // deleteChunkFiles, on the records
  // ---------------------------------------------------------------------

  /** The records left once every name starting with the id is deleted. */
  function WithoutPrefix<R>(files: map<string, R>, id: string): map<string, R>
  {
    map n | n in files && !StartsWith(n, id) :: files[n]
  }

  /** Deleting by bare prefix removes the index of every document whose id starts with the deleted id. */
  lemma PrefixDeletionLoses(files: map<string, ChunkRecord>, id: string, other: string, size: nat)
    requires size > 0 && StartsWith(other, id)
    ensures LoadFrom(WithoutPrefix(files, id), other, size).Err?
  {
    assert IndexName(other)[..|id|] == other[..|id|];
  }

  /** A concrete collision: deleting "doc1" also deletes the chunk records of "doc10". */
  lemma PrefixCollision(files: map<string, ChunkRecord>)
    ensures LoadFrom(WithoutPrefix(files, "doc1"), "doc10", 1).Err?
  {
    PrefixDeletionLoses(files, "doc1", "doc10", 1);
  }

  /** A document whose record names cannot start with the deleted id loads as before. */
  lemma DeleteKeepsUnrelated(files: map<string, ChunkRecord>, id: string, other: string, size: nat)
    requires size > 0
    requires !StartsWith(other + "_", id) && !StartsWith(id, other + "_")
    ensures LoadFrom(WithoutPrefix(files, id), other, size) == LoadFrom(files, other, size)
  {
    var f := WithoutPrefix(files, id);
    forall rest: string ensures !StartsWith(other + "_" + rest, id) {
      var name := other + "_" + rest;
      if |id| <= |other| + 1 {
        assert name[..|id|] == (other + "_")[..|id|];
      } else {
        assert name[..|other| + 1] == other + "_";
        assert name[..|other| + 1] == other + "_";
      }
    }
    assert IndexName(other) == other + "_" + "index.meta";
    forall j: nat ensures BatchKey(other)(j) == other + "_" + (NatToString(j) + ".chunks") {
    }
    LoadAgrees(f, files, other, size);
  }

  // ---------------------------------------------------------------------
  // getAllDocumentIds, on the records
  // ---------------------------------------------------------------------

  /** The metadata records a listing reports: those whose name ends in ".meta". */
  function MetaNames<R>(files: map<string, R>): set<string>
  {
    set n | n in files && EndsWith(n, ".meta")
  }

  /** The id a metadata record stands for: its name without the 5-character suffix. */
  function IdOf(name: string): (id: string)
    requires EndsWith(name, ".meta")
    ensures MetaName(id) == name
  {
    var id := name[..|name| - 5];
    assert id + ".meta" == name;
    id
  }

  /** Removing a key forgets what was last put under it. */
  lemma RemoveUpdated<V>(m: map<string, V>, k: string, v: V)
    ensures m[k := v] - {k} == m - {k}
  {
  }

  /** The metadata record names of a list of ids. */
  function MetaNamesOf(ids: seq<string>): set<string>
    decreases |ids|
  {
    if |ids| == 0 then {} else MetaNamesOf(ids[..|ids| - 1]) + {MetaName(Last(ids))}
  }

  lemma {:induction false} MetaNamesOfMembers(ids: seq<string>, n: string)
    ensures n in MetaNamesOf(ids) <==> exists x :: x in ids && n == MetaName(x)
    decreases |ids|
  {
    if |ids| > 0 {
      MetaNamesOfMembers(ids[..|ids| - 1], n);
      assert ids == ids[..|ids| - 1] + [Last(ids)];
    }
  }

  /** Some id of the list starts the name. */
  predicate StartsWithAny(n: string, ids: seq<string>)
    decreases |ids|
  {
    |ids| > 0 && (StartsWithAny(n, ids[..|ids| - 1]) || StartsWith(n, Last(ids)))
  }

  lemma {:induction false} StartsWithAnyMembers(n: string, ids: seq<string>)
    ensures StartsWithAny(n, ids) <==> exists x :: x in ids && StartsWith(n, x)
    decreases |ids|
  {
    if |ids| > 0 {
      StartsWithAnyMembers(n, ids[..|ids| - 1]);
      assert ids == ids[..|ids| - 1] + [Last(ids)];
    }
  }

  // ---------------------------------------------------------------------
  // The service
  // ---------------------------------------------------------------------

  class StorageService {
    /** storage.base-path, storage.cache-enabled and storage.chunk-batch-size. */
    const basePath: string
    const cacheEnabled: bool
    const chunkBatchSize: int

    /** The chunks directory, the metadata directory (by file name) and the files directory. */
    var chunkFiles: map<string, ChunkRecord>
    var metadataFiles: map<string, DocumentDto>
    var storedFiles: set<string>

    /** chunksCache and metadataCache, by document id. */
    var chunksCache: map<string, seq<TextChunk>>
    var metadataCache: map<string, DocumentDto>

    /** The names of the chunk records, in the order they were written. */
    ghost var writes: seq<string>

    ghost predicate Valid()
      reads this
    {
      && chunkBatchSize > 0
      && (!cacheEnabled ==> chunksCache == map[] && metadataCache == map[])
    }

    /** The caches hold only what the records give. */
    ghost predicate Coherent()
      reads this
      requires Valid()
    {
      && (forall id :: id in chunksCache ==> LoadFrom(chunkFiles, id, chunkBatchSize) == Ok(chunksCache[id]))
      && (forall id :: id in metadataCache ==>
            MetaName(id) in metadataFiles && metadataFiles[MetaName(id)] == metadataCache[id])
    }

    /** What getDocumentMetadata gives: the cached record, else the stored one, else null. */
    ghost function MetadataView(id: string): Option<DocumentDto>
      reads this
    {
      if id in metadataCache then Some(metadataCache[id])
      else if MetaName(id) in metadataFiles then Some(metadataFiles[MetaName(id)])
      else None
    }

    /** An empty store; the batch size must be positive (zero would never finish writing a batch). */
    constructor(basePath: string, cacheEnabled: bool, chunkBatchSize: int)
      requires chunkBatchSize > 0
      ensures Valid() && Coherent()
      ensures this.basePath == basePath && this.cacheEnabled == cacheEnabled && this.chunkBatchSize == chunkBatchSize
      ensures chunkFiles == map[] && metadataFiles == map[] && storedFiles == {}
      ensures chunksCache == map[] && metadataCache == map[] && writes == []
    {
      this.basePath := basePath;
      this.cacheEnabled := cacheEnabled;
      this.chunkBatchSize := chunkBatchSize;
      chunkFiles := map[];
      metadataFiles := map[];
      storedFiles := {};
      chunksCache := map[];
      metadataCache := map[];
      writes := [];
    }

    /**
     * storeFile: the upload is copied into the files directory under its
     * original name, replacing a file of that name; `copied` is false when
     * creating the directory or copying throws, which is rethrown as an
     * ApplicationException.
     */
    method StoreFile(originalFilename: string, copied: bool) returns (r: Result<string>)
      requires Valid()
      modifies this
      ensures Valid() && (old(Coherent()) ==> Coherent())
      ensures copied ==> r == Ok(FilePath(basePath, originalFilename))
      ensures !copied ==> r == Err(ApplicationException(StoreFileFailure))
      ensures storedFiles == if copied then old(storedFiles) + {FilePath(basePath, originalFilename)} else old(storedFiles)
      ensures chunkFiles == old(chunkFiles) && metadataFiles == old(metadataFiles)
      ensures chunksCache == old(chunksCache) && metadataCache == old(metadataCache) && writes == old(writes)
    {
      if !copied {
        return Err(ApplicationException(StoreFileFailure));
      }
      var path := FilePath(basePath, originalFilename);
      storedFiles := storedFiles + {path};
      r := Ok(path);
    }

    /** storeDocumentChunks: the batches in offset order, then the index, then the cache. */
    method StoreDocumentChunks(id: string, chunks: seq<TextChunk>)
      requires Valid()
      modifies this
      ensures Valid()
      ensures chunkFiles == Stored(old(chunkFiles), id, chunks, chunkBatchSize)
      ensures writes == old(writes) + BatchWrites(BatchKey(id), |chunks|, chunkBatchSize, 0) + [IndexName(id)]
      ensures chunksCache == if cacheEnabled then old(chunksCache)[id := chunks] else old(chunksCache)
      ensures metadataFiles == old(metadataFiles) && storedFiles == old(storedFiles)
      ensures metadataCache == old(metadataCache)
      ensures old(Coherent()) ==> Coherent()
    {
      ghost var wasCoherent := Coherent();
      WriteBatches(id, chunks);
      chunkFiles := chunkFiles[IndexName(id) := Count(|chunks|)];
      writes := writes + [IndexName(id)];
      if cacheEnabled {
        chunksCache := chunksCache[id := chunks];
      }
      if wasCoherent {
        StoreCoherent(old(chunkFiles), old(chunksCache), id, chunks);
      }
    }

    /** The loop of storeDocumentChunks: one record per batch, at offsets 0, size, 2 * size, ... */
    method WriteBatches(id: string, chunks: seq<TextChunk>)
      requires chunkBatchSize > 0
      modifies this
      ensures chunkFiles == StoredBatches(old(chunkFiles), BatchKey(id), chunks, chunkBatchSize, 0)
      ensures writes == old(writes) + BatchWrites(BatchKey(id), |chunks|, chunkBatchSize, 0)
      ensures chunksCache == old(chunksCache) && metadataCache == old(metadataCache)
      ensures metadataFiles == old(metadataFiles) && storedFiles == old(storedFiles)
    {
      var size := chunkBatchSize;
      var total := |chunks|;
      ghost var key := BatchKey(id);
      var i := 0;
      while i < total
        invariant StoredBatches(chunkFiles, key, chunks, size, i) == StoredBatches(old(chunkFiles), key, chunks, size, 0)
        invariant old(writes) + BatchWrites(key, total, size, 0) == writes + BatchWrites(key, total, size, i)
        invariant chunksCache == old(chunksCache) && metadataCache == old(metadataCache)
        invariant metadataFiles == old(metadataFiles) && storedFiles == old(storedFiles)
        decreases total - i
      {
        var end := Min(i + size, total);
        var name := BatchName(id, i);
        assert name == key(i);
        assert writes + BatchWrites(key, total, size, i) == writes + [name] + BatchWrites(key, total, size, i + size);
        chunkFiles := chunkFiles[name := Batch(chunks[i..end])];
        writes := writes + [name];
        i := i + size;
      }
      assert writes + BatchWrites(key, total, size, i) == writes;
    }

    /** Storing a list keeps every cached list equal to what its records give. */
    lemma StoreCoherent(before: map<string, ChunkRecord>, cache: map<string, seq<TextChunk>>, id: string, chunks: seq<TextChunk>)
      requires chunkBatchSize > 0
      requires chunkFiles == Stored(before, id, chunks, chunkBatchSize)
      requires chunksCache == cache[id := chunks] || (chunksCache == cache && id !in cache)
      requires forall x :: x in cache ==> LoadFrom(before, x, chunkBatchSize) == Ok(cache[x])
      ensures forall x :: x in chunksCache ==> LoadFrom(chunkFiles, x, chunkBatchSize) == Ok(chunksCache[x])
    {
      RoundTrip(before, id, chunks, chunkBatchSize);
      forall x | x in chunksCache && x != id ensures LoadFrom(chunkFiles, x, chunkBatchSize) == Ok(chunksCache[x]) {
        StoreKeepsOthers(before, id, chunks, chunkBatchSize, x);
      }
    }

    /** loadDocumentChunks: the cached list on a hit; else the records, cached when caching is on. */
    method LoadDocumentChunks(id: string) returns (r: Result<seq<TextChunk>>)
      requires Valid()
      modifies this
      ensures Valid()
      ensures id in old(chunksCache) ==> r == Ok(old(chunksCache)[id]) && chunksCache == old(chunksCache)
      ensures id !in old(chunksCache) ==>
        && r == LoadFrom(chunkFiles, id, chunkBatchSize)
        && chunksCache == if cacheEnabled && r.Ok? then old(chunksCache)[id := r.value] else old(chunksCache)
      ensures chunkFiles == old(chunkFiles) && metadataFiles == old(metadataFiles) && storedFiles == old(storedFiles)
      ensures metadataCache == old(metadataCache) && writes == old(writes)
      ensures old(Coherent()) ==> Coherent() && r == LoadFrom(chunkFiles, id, chunkBatchSize)
    {
      if cacheEnabled && id in chunksCache {
        return Ok(chunksCache[id]);
      }
      var indexName := IndexName(id);
      if indexName !in chunkFiles || !chunkFiles[indexName].Count? {
        return Err(ApplicationException(LoadFailure + id));
      }
      r := ReadChunkBatches(id, chunkFiles[indexName].n);
      if cacheEnabled && r.Ok? {
        chunksCache := chunksCache[id := r.value];
      }
    }

    /** The loop of loadDocumentChunks: the batches at offsets below the count, appended in order. */
    method ReadChunkBatches(id: string, total: int) returns (r: Result<seq<TextChunk>>)
      requires chunkBatchSize > 0
      ensures r == ReadBatches(chunkFiles, BatchKey(id), chunkBatchSize, 0, total, ApplicationException(LoadFailure + id))
    {
      var size := chunkBatchSize;
      var all: seq<TextChunk> := [];
      var i: nat := 0;
      ghost var key := BatchKey(id);
      ghost var failure := ApplicationException(LoadFailure + id);
      PrefixedEmpty(ReadBatches(chunkFiles, key, size, i, total, failure));
      while i < total
        invariant ReadBatches(chunkFiles, key, size, 0, total, failure)
               == Prefixed(all, ReadBatches(chunkFiles, key, size, i, total, failure))
        decreases if i < total then total - i else 0
      {
        var name := BatchName(id, i);
        assert name == key(i);
        if name !in chunkFiles || !chunkFiles[name].Batch? {
          return Err(ApplicationException(LoadFailure + id));
        }
        var batch := chunkFiles[name].chunks;
        assert ReadBatches(chunkFiles, key, size, i, total, failure)
            == Prefixed(batch, ReadBatches(chunkFiles, key, size, i + size, total, failure));
        PrefixedTwice(all, batch, ReadBatches(chunkFiles, key, size, i + size, total, failure));
        all := all + batch;
        i := i + size;
      }
      assert all + [] == all;
      r := Ok(all);
    }

    /** storeDocumentMetadata: the record `<id>.meta`, and the cache when caching is on. */
    method StoreDocumentMetadata(document: DocumentDto)
      requires Valid()
      modifies this
      ensures Valid()
      ensures metadataFiles == old(metadataFiles)[MetaName(document.id) := document]
      ensures metadataCache == if cacheEnabled then old(metadataCache)[document.id := document] else old(metadataCache)
      ensures chunkFiles == old(chunkFiles) && storedFiles == old(storedFiles)
      ensures chunksCache == old(chunksCache) && writes == old(writes)
      ensures old(Coherent()) ==> Coherent() && MetadataView(document.id) == Some(document)
    {
      metadataFiles := metadataFiles[MetaName(document.id) := document];
      if cacheEnabled {
        metadataCache := metadataCache[document.id := document];
      }
      forall x | x in metadataCache && x != document.id ensures MetaName(x) != MetaName(document.id) {
        assert x == MetaName(x)[..|x|];
      }
    }

    /** getDocumentMetadata: the cached record, else the stored one (then cached), else null. */
    method GetDocumentMetadata(id: string) returns (r: Option<DocumentDto>)
      requires Valid()
      modifies this
      ensures Valid()
      ensures r == old(MetadataView(id))
      ensures metadataCache == if cacheEnabled && r.Some? then old(metadataCache)[id := r.value] else old(metadataCache)
      ensures chunkFiles == old(chunkFiles) && metadataFiles == old(metadataFiles) && storedFiles == old(storedFiles)
      ensures chunksCache == old(chunksCache) && writes == old(writes)
      ensures old(Coherent()) ==> Coherent()
    {
      if cacheEnabled && id in metadataCache {
        return Some(metadataCache[id]);
      }
      var name := MetaName(id);
      if name !in metadataFiles {
        return None;
      }
      var document := metadataFiles[name];
      if cacheEnabled {
        metadataCache := metadataCache[id := document];
      }
      r := Some(document);
    }

    /** getAllDocumentIds: the ids of the records ending in ".meta", each once, in listing order. */
    method GetAllDocumentIds() returns (ids: seq<string>)
      ensures forall x :: x in ids <==> MetaName(x) in metadataFiles
      ensures forall j, k :: 0 <= j < k < |ids| ==> ids[j] != ids[k]
      ensures |ids| == |MetaNames(metadataFiles)|
    {
      var names := MetaNames(metadataFiles);
      ids := [];
      while names != {}
        invariant names <= MetaNames(metadataFiles)
        invariant |ids| + |names| == |MetaNames(metadataFiles)|
        invariant forall x :: x in ids <==> MetaName(x) in MetaNames(metadataFiles) - names
        invariant forall j, k :: 0 <= j < k < |ids| ==> ids[j] != ids[k]
        decreases |names|
      {
        var name :| name in names;
        var id := IdOf(name);
        forall x | x in ids ensures x != id {
        }
        ids := ids + [id];
        names := names - {name};
      }
      forall x | MetaName(x) in metadataFiles ensures MetaName(x) in MetaNames(metadataFiles) {
      }
    }

    /** deleteChunkFiles: every chunk record whose name starts with the id, with no separator. */
    method DeleteChunkFiles(id: string)
      modifies this
      ensures chunkFiles == WithoutPrefix(old(chunkFiles), id)
      ensures metadataFiles == old(metadataFiles) && storedFiles == old(storedFiles)
      ensures chunksCache == old(chunksCache) && metadataCache == old(metadataCache) && writes == old(writes)
    {
      ghost var before := chunkFiles;
      var doomed := set n | n in chunkFiles && StartsWith(n, id);
      while doomed != {}
        invariant forall n :: n in chunkFiles <==> n in before && (!StartsWith(n, id) || n in doomed)
        invariant forall n :: n in chunkFiles ==> chunkFiles[n] == before[n]
        invariant forall n :: n in doomed ==> StartsWith(n, id)
        invariant metadataFiles == old(metadataFiles) && storedFiles == old(storedFiles)
        invariant chunksCache == old(chunksCache) && metadataCache == old(metadataCache) && writes == old(writes)
        decreases |doomed|
      {
        var name :| name in doomed;
        chunkFiles := chunkFiles - {name};
        doomed := doomed - {name};
      }
      assert chunkFiles == WithoutPrefix(before, id);
    }

    /** deleteDocument: false with nothing changed when there is no metadata; else file, metadata, chunk records and cache entries go. */
    method DeleteDocument(id: string) returns (deleted: bool)
      requires Valid()
      modifies this
      ensures Valid()
      ensures deleted <==> old(MetadataView(id)).Some?
      ensures !deleted ==>
        && chunkFiles == old(chunkFiles) && metadataFiles == old(metadataFiles) && storedFiles == old(storedFiles)
        && chunksCache == old(chunksCache) && metadataCache == old(metadataCache)
      ensures deleted ==>
        && chunkFiles == WithoutPrefix(old(chunkFiles), id)
        && metadataFiles == old(metadataFiles) - {MetaName(id)}
        && storedFiles == (var path := old(MetadataView(id)).value.storagePath;
                           if path.Some? then old(storedFiles) - {path.value} else old(storedFiles))
        && chunksCache == old(chunksCache) - {id}
        && metadataCache == old(metadataCache) - {id}
      ensures writes == old(writes)
    {
      ghost var metadataBefore := metadataCache;
      var document := GetDocumentMetadata(id);
      if document.None? {
        return false;
      }
      if cacheEnabled {
        RemoveUpdated(metadataBefore, id, document.value);
      }
      if document.value.storagePath.Some? {
        storedFiles := storedFiles - {document.value.storagePath.value};
      }
      var name := MetaName(id);
      if name in metadataFiles {
        metadataFiles := metadataFiles - {name};
      }
      DeleteChunkFiles(id);
      if cacheEnabled {
        chunksCache := chunksCache - {id};
        metadataCache := metadataCache - {id};
      } else {
        assert chunksCache - {id} == chunksCache && metadataCache - {id} == metadataCache;
      }
      deleted := true;
    }

    /** cleanupFilesDirectory: every uploaded file is deleted. */
    method CleanupFilesDirectory()
      modifies this
      ensures storedFiles == {}
      ensures chunkFiles == old(chunkFiles) && metadataFiles == old(metadataFiles)
      ensures chunksCache == old(chunksCache) && metadataCache == old(metadataCache) && writes == old(writes)
    {
      while storedFiles != {}
        invariant chunkFiles == old(chunkFiles) && metadataFiles == old(metadataFiles)
        invariant chunksCache == old(chunksCache) && metadataCache == old(metadataCache) && writes == old(writes)
        decreases |storedFiles|
      {
        var file :| file in storedFiles;
        storedFiles := storedFiles - {file};
      }
    }

    /**
     * deleteAllDocuments: every listed document is deleted and counted, the
     * caches are cleared, and the files directory is emptied; only records of
     * the metadata directory not ending in ".meta" remain there.
     */
    method DeleteAllDocuments() returns (count: int)
      requires Valid()
      modifies this
      ensures Valid()
      ensures count == |MetaNames(old(metadataFiles))|
      ensures forall n :: n in metadataFiles <==> n in old(metadataFiles) && !EndsWith(n, ".meta")
      ensures forall n :: n in chunkFiles ==> n in old(chunkFiles) && chunkFiles[n] == old(chunkFiles)[n]
      ensures forall n, x :: n in chunkFiles && MetaName(x) in old(metadataFiles) ==> !StartsWith(n, x)
      ensures forall n :: n in chunkFiles <==>
                n in old(chunkFiles) && !exists x :: MetaName(x) in old(metadataFiles) && StartsWith(n, x)
      ensures storedFiles == {} && chunksCache == map[] && metadataCache == map[]
      ensures writes == old(writes)
    {
      var ids := GetAllDocumentIds();
      count := 0;
      var i := 0;
      while i < |ids|
        invariant 0 <= i <= |ids| && count == i
        invariant Valid() && writes == old(writes)
        invariant forall k :: i <= k < |ids| ==> MetaName(ids[k]) in metadataFiles
        invariant metadataFiles.Keys == old(metadataFiles).Keys - MetaNamesOf(ids[..i])
        invariant forall n :: n in chunkFiles ==> n in old(chunkFiles) && chunkFiles[n] == old(chunkFiles)[n]
        invariant forall n :: n in chunkFiles <==> n in old(chunkFiles) && !StartsWithAny(n, ids[..i])
      {
        forall k | i < k < |ids| ensures MetaName(ids[k]) != MetaName(ids[i]) {
          assert ids[k] == MetaName(ids[k])[..|ids[k]|];
          assert ids[i] == MetaName(ids[i])[..|ids[i]|];
        }
        assert ids[..i + 1][..i] == ids[..i] && Last(ids[..i + 1]) == ids[i];
        var deleted := DeleteDocument(ids[i]);
        if deleted {
          count := count + 1;
        }
        i := i + 1;
      }
      if cacheEnabled {
        chunksCache := map[];
        metadataCache := map[];
      }
      CleanupFilesDirectory();
      assert ids[..|ids|] == ids;
      DeletedAll(ids, old(metadataFiles), old(chunkFiles));
    }

    /** What is left once every listed id is deleted. */
    lemma DeletedAll(ids: seq<string>, listed: map<string, DocumentDto>, before: map<string, ChunkRecord>)
      requires forall x :: x in ids <==> MetaName(x) in listed
      requires metadataFiles.Keys == listed.Keys - MetaNamesOf(ids)
      requires forall n :: n in chunkFiles <==> n in before && !StartsWithAny(n, ids)
      ensures forall n :: n in metadataFiles <==> n in listed && !EndsWith(n, ".meta")
      ensures forall n, x :: n in chunkFiles && MetaName(x) in listed ==> !StartsWith(n, x)
      ensures forall n :: n in chunkFiles <==> n in before && !exists x :: MetaName(x) in listed && StartsWith(n, x)
    {
      forall n ensures n in MetaNamesOf(ids) <==> n in listed && EndsWith(n, ".meta") {
        MetaNamesOfMembers(ids, n);
        if n in listed && EndsWith(n, ".meta") {
          assert IdOf(n) in ids;
        }
      }
      forall n, x | n in chunkFiles && MetaName(x) in listed ensures !StartsWith(n, x) {
        StartsWithAnyMembers(n, ids);
      }
      forall n ensures StartsWithAny(n, ids) <==> exists x :: MetaName(x) in listed && StartsWith(n, x) {
        StartsWithAnyMembers(n, ids);
      }
    }

    /** The caches may drop an entry at any time (size bound and expiry after access). */
    method EvictChunks(id: string)
      requires Valid()
      modifies this
      ensures Valid()
      ensures chunksCache == old(chunksCache) - {id}
      ensures chunkFiles == old(chunkFiles) && metadataFiles == old(metadataFiles) && storedFiles == old(storedFiles)
      ensures metadataCache == old(metadataCache) && writes == old(writes)
      ensures old(Coherent()) ==> Coherent()
    {
      chunksCache := chunksCache - {id};
    }

    method EvictMetadata(id: string)
      requires Valid()
      modifies this
      ensures Valid()
      ensures metadataCache == old(metadataCache) - {id}
      ensures chunkFiles == old(chunkFiles) && metadataFiles == old(metadataFiles) && storedFiles == old(storedFiles)
      ensures chunksCache == old(chunksCache) && writes == old(writes)
      ensures old(Coherent()) ==> Coherent()
    {
      metadataCache := metadataCache - {id};
    }
  }
}
