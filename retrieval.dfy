/** Retrieval of the chunks closest to a query (backend/app/services/retrieval_service.py):
    one query embedding, a search of the persisted index, and the resolution of every hit
    through the mapping, chunk and document tables. */
module Retrieval {
  import opened Common
  import opened Config
  import opened VectorStore
  import opened Db
  import opened Embedding
  import opened Chunking
  import opened Ingest

  /** The dimension `retrieve` opens the index with. */
  const SearchDim: int := 384

  /** The length the chunk text is cut to for the snippet. */
  const SnippetLength: int := 400

  /** One retrieved chunk, as `ChunkMetadata` in backend/app/schemas/models.py. */
  datatype ChunkMetadata = ChunkMetadata(documentId: int, filename: string, page: Option<int>, chunkId: int, snippet: string)

  /** The exceptions `retrieve` raises: `[0]` of an empty embedding list, a search FAISS
      refuses, and a subscript of a row that is not there (a mapped chunk or its document is
      missing). */
  datatype RetrieveError =
    | NoQueryVector
    | SearchFailed
    | MissingChunk(chunkId: int)
    | MissingDocument(documentId: int)

  /** `k or settings.max_retrieve`: an absent or zero k takes the configured default. */
  function EffectiveK(k: Option<int>, default: int): int {
    if k.None? || k.value == 0 then default else k.value
  }

  /** `chunk_row["text"][:400]`: the first 400 characters, or all of a shorter text. */
  function Snippet(text: string): (r: string)
    ensures |r| == Min(SnippetLength, |text|) && r == text[..|r|]
  {
    PySlicePrefix(text, SnippetLength);
    PySlice(text, 0, SnippetLength)
  }

  /** The body of the loop for one vector id: no row when the id has no mapping, otherwise the
      metadata of the mapped chunk and its document, or the exception a missing row raises. */
  function Resolve(docs: seq<DocumentRow>, chunks: seq<ChunkRow>, mappings: seq<MappingRow>, fid: int)
    : Result<Option<ChunkMetadata>, RetrieveError>
  {
    match MappingByVector(mappings, fid)
    case None => Success(None)
    case Some(m) =>
      match ChunkById(chunks, m.chunkId)
      case None => Failure(MissingChunk(m.chunkId))
      case Some(c) =>
        match DocumentById(docs, c.documentId)
        case None => Failure(MissingDocument(c.documentId))
        case Some(d) => Success(Some(ChunkMetadata(d.id, d.filename, c.pageStart, c.id, Snippet(c.text))))
  }

  /** The loop over the hits: rows in hit order, the first exception ending it. */
  function ResolveAll(docs: seq<DocumentRow>, chunks: seq<ChunkRow>, mappings: seq<MappingRow>, ids: seq<int>)
    : Result<seq<ChunkMetadata>, RetrieveError>
  {
    if |ids| == 0 then Success([])
    else
      match ResolveAll(docs, chunks, mappings, ids[..|ids| - 1])
      case Failure(e) => Failure(e)
      case Success(rows) =>
        match Resolve(docs, chunks, mappings, ids[|ids| - 1])
        case Failure(e) => Failure(e)
        case Success(None) => Success(rows)
        case Success(Some(row)) => Success(rows + [row])
  }

  /** The row a hit yields when it resolves, with exceptions read as no row. */
  function HitFor(docs: seq<DocumentRow>, chunks: seq<ChunkRow>, mappings: seq<MappingRow>): int -> Option<ChunkMetadata> {
    fid => match Resolve(docs, chunks, mappings, fid) case Success(Some(row)) => Some(row) case _ => None
  }

  /** The loop of `retrieve` over the hits, on the tables of the store. */
  method ResolveHits(store: Store, ids: seq<int>) returns (r: Result<seq<ChunkMetadata>, RetrieveError>)
    ensures r == ResolveAll(store.documents, store.chunks, store.mappings, ids)
  {
    var rows: seq<ChunkMetadata> := [];
    var i := 0;
    while i < |ids|
      invariant 0 <= i <= |ids|
      invariant ResolveAll(store.documents, store.chunks, store.mappings, ids[..i]) == Success(rows)
    {
      assert ids[..i + 1][..i] == ids[..i];
      var fid := ids[i];
      var mapping := MappingByVector(store.mappings, fid);
      if mapping.None? {
        i := i + 1;
        continue;
      }
      var chunkRow := ChunkById(store.chunks, mapping.value.chunkId);
      if chunkRow.None? {
        ResolveAllFailure(store.documents, store.chunks, store.mappings, ids, i + 1);
        return Failure(MissingChunk(mapping.value.chunkId));
      }
      var docRow := DocumentById(store.documents, chunkRow.value.documentId);
      if docRow.None? {
        ResolveAllFailure(store.documents, store.chunks, store.mappings, ids, i + 1);
        return Failure(MissingDocument(chunkRow.value.documentId));
      }
      rows := rows + [ChunkMetadata(docRow.value.id, docRow.value.filename, chunkRow.value.pageStart,
                                    chunkRow.value.id, Snippet(chunkRow.value.text))];
      i := i + 1;
    }
    assert ids[..i] == ids;
    return Success(rows);
  }

  /** The first exception ends the loop: a prefix of the hits that raises makes all of them raise
      the same. */
  lemma {:induction false} ResolveAllFailure(docs: seq<DocumentRow>, chunks: seq<ChunkRow>, mappings: seq<MappingRow>,
                                             ids: seq<int>, n: int)
    requires 0 <= n <= |ids| && ResolveAll(docs, chunks, mappings, ids[..n]).Failure?
    ensures ResolveAll(docs, chunks, mappings, ids) == ResolveAll(docs, chunks, mappings, ids[..n])
    decreases |ids|
  {
    if n < |ids| {
      var init := ids[..|ids| - 1];
      assert init[..n] == ids[..n];
      ResolveAllFailure(docs, chunks, mappings, init, n);
    } else {
      assert ids[..n] == ids;
    }
  }

  /** `retrieve` as a function of the tables, the persisted indexes and the embedding client. */
  function RetrieveSpec(docs: seq<DocumentRow>, chunks: seq<ChunkRow>, mappings: seq<MappingRow>,
                        files: map<string, FlatIndex>, provider: string, apiKey: string,
                        query: string, k: Option<int>, settings: Settings, b: EmbedBackends,
                        knn: (FlatIndex, Vector, int) -> Option<RawRow>)
    : Result<seq<ChunkMetadata>, RetrieveError>
  {
    var vectors := EmbedResult(provider, apiKey, [query], b);
    if |vectors| == 0 then Failure(NoQueryVector)
    else
      match SearchIndex(OpenedIndex(files, settings.faissIndexPath, SearchDim), vectors[0], EffectiveK(k, settings.maxRetrieve), knn)
      case None => Failure(SearchFailed)
      case Some(hits) => if |hits.0| == 0 then Success([]) else ResolveAll(docs, chunks, mappings, hits.0)
  }

  /** `retrieve`: the query is embedded (which may load the local model), the index at the
      configured path is opened with dimension 384 and searched, and the hits are resolved. */
  method Retrieve(store: Store, disk: Disk, client: EmbeddingClient, query: string, k: Option<int>,
                  settings: Settings, b: EmbedBackends, knn: (FlatIndex, Vector, int) -> Option<RawRow>)
    returns (r: Result<seq<ChunkMetadata>, RetrieveError>)
    modifies client
    ensures client.localModel == LocalAfterEmbed(old(client.localModel), client.provider, client.apiKey, [query], b)
    ensures r == RetrieveSpec(store.documents, store.chunks, store.mappings, disk.files, client.provider, client.apiKey,
                              query, k, settings, b, knn)
  {
    var effectiveK := EffectiveK(k, settings.maxRetrieve);
    var vectors := client.Embed([query], b);
    if |vectors| == 0 {
      return Failure(NoQueryVector);
    }
    var queryEmb := vectors[0];
    var faiss := new FaissStore(disk, settings.faissIndexPath, SearchDim);
    var hits := faiss.Search(queryEmb, effectiveK, knn);
    if hits.None? {
      return Failure(SearchFailed);
    }
    var faissIds := hits.value.0;
    if |faissIds| == 0 {
      return Success([]);
    }
    r := ResolveHits(store, faissIds);
  }

  // ---------------------------------------------------------------------------
  // Properties of retrieval

  /** The row describes the hit: the first mapping row for the vector id names a stored
      chunk, the first chunk row with that id belongs to a stored document, and the row holds
      the chunk id, the document id and filename, the chunk's first page and a snippet that is
      a prefix of the chunk text of at most 400 characters. */
  predicate Describes(docs: seq<DocumentRow>, chunks: seq<ChunkRow>, mappings: seq<MappingRow>, fid: int, row: ChunkMetadata) {
    var m := MappingByVector(mappings, fid);
    && m.Some?
    && var c := ChunkById(chunks, m.value.chunkId);
    && c.Some?
    && var d := DocumentById(docs, c.value.documentId);
    && d.Some?
    && row == ChunkMetadata(d.value.id, d.value.filename, c.value.pageStart, c.value.id, Snippet(c.value.text))
    && row.chunkId == m.value.chunkId && row.documentId == c.value.documentId
    && |row.snippet| <= SnippetLength && row.snippet == c.value.text[..|row.snippet|]
  }

  /** Every row the loop yields describes one of the hits, and there are no more rows than
      hits. */
  lemma {:induction false} ResolvedRowsStored(docs: seq<DocumentRow>, chunks: seq<ChunkRow>, mappings: seq<MappingRow>, ids: seq<int>)
    ensures var r := ResolveAll(docs, chunks, mappings, ids);
      r.Success? ==>
        && |r.value| <= |ids|
        && forall j :: 0 <= j < |r.value| ==>
             exists i :: 0 <= i < |ids| && Describes(docs, chunks, mappings, ids[i], r.value[j])
  {
    if |ids| > 0 {
      var init := ids[..|ids| - 1];
      ResolvedRowsStored(docs, chunks, mappings, init);
      var fid := ids[|ids| - 1];
      var res := Resolve(docs, chunks, mappings, fid);
      var front := ResolveAll(docs, chunks, mappings, init);
      if front.Success? && res.Success? {
        var rows := ResolveAll(docs, chunks, mappings, ids).value;
        forall j | 0 <= j < |rows|
          ensures exists i :: 0 <= i < |ids| && Describes(docs, chunks, mappings, ids[i], rows[j])
        {
          if j < |front.value| {
            assert rows[j] == front.value[j];
            var i :| 0 <= i < |init| && Describes(docs, chunks, mappings, init[i], front.value[j]);
            assert init[i] == ids[i];
          } else {
            assert rows[j] == res.value.value;
            assert Describes(docs, chunks, mappings, ids[|ids| - 1], rows[j]);
          }
        }
      }
    }
  }

  /** When every mapped chunk and every chunk's document is stored, no hit raises, and the
      result holds the rows of exactly the hits that have a mapping, in hit order. */
  lemma {:induction false} ResolveReferential(docs: seq<DocumentRow>, chunks: seq<ChunkRow>, mappings: seq<MappingRow>, ids: seq<int>)
    requires forall i :: 0 <= i < |docs| ==> docs[i].id == i + 1
    requires forall i :: 0 <= i < |chunks| ==> chunks[i].id == i + 1
    requires TablesReferential(docs, chunks, mappings)
    ensures ResolveAll(docs, chunks, mappings, ids) == Success(FilterMap(ids, HitFor(docs, chunks, mappings)))
    ensures forall i :: 0 <= i < |ids| ==>
      (HitFor(docs, chunks, mappings)(ids[i]).Some? <==> MappingByVector(mappings, ids[i]).Some?)
  {
    forall fid | MappingByVector(mappings, fid).Some?
      ensures Resolve(docs, chunks, mappings, fid).Success? && Resolve(docs, chunks, mappings, fid).value.Some?
    {
      var m := MappingByVector(mappings, fid).value;
      ChunkByIdAt(chunks, m.chunkId - 1);
      var c := chunks[m.chunkId - 1];
      DocumentByIdAt(docs, c.documentId - 1);
    }
    if |ids| > 0 {
      ResolveReferential(docs, chunks, mappings, ids[..|ids| - 1]);
    }
  }

  /** With ids as assigned, the row with id i + 1 is the one at position i. */
  lemma {:induction false} ChunkByIdAt(chunks: seq<ChunkRow>, i: int)
    requires forall k :: 0 <= k < |chunks| ==> chunks[k].id == k + 1
    requires 0 <= i < |chunks|
    ensures ChunkById(chunks, i + 1) == Some(chunks[i])
  {
    ChunkByIdShifted(chunks, i, 1);
  }

  lemma {:induction false} ChunkByIdShifted(chunks: seq<ChunkRow>, i: int, base: int)
    requires forall k :: 0 <= k < |chunks| ==> chunks[k].id == k + base
    requires 0 <= i < |chunks|
    ensures ChunkById(chunks, i + base) == Some(chunks[i])
    decreases i
  {
    if i > 0 {
      assert forall k :: 0 <= k < |chunks[1..]| ==> chunks[1..][k].id == k + base + 1;
      ChunkByIdShifted(chunks[1..], i - 1, base + 1);
      assert chunks[1..][i - 1] == chunks[i];
    }
  }

  /** With ids as assigned, the row with id i + 1 is the one at position i. */
  lemma {:induction false} DocumentByIdAt(docs: seq<DocumentRow>, i: int)
    requires forall k :: 0 <= k < |docs| ==> docs[k].id == k + 1
    requires 0 <= i < |docs|
    ensures DocumentById(docs, i + 1) == Some(docs[i])
  {
    DocumentByIdShifted(docs, i, 1);
  }

  lemma {:induction false} DocumentByIdShifted(docs: seq<DocumentRow>, i: int, base: int)
    requires forall k :: 0 <= k < |docs| ==> docs[k].id == k + base
    requires 0 <= i < |docs|
    ensures DocumentById(docs, i + base) == Some(docs[i])
    decreases i
  {
    if i > 0 {
      assert forall k :: 0 <= k < |docs[1..]| ==> docs[1..][k].id == k + base + 1;
      DocumentByIdShifted(docs[1..], i - 1, base + 1);
      assert docs[1..][i - 1] == docs[i];
    }
  }

  /** When the stores agree and ids are as assigned, `retrieve` raises only when the query
      has no embedding or the search raises; otherwise it yields the rows of exactly the hits
      that have a mapping, in hit order. */
  lemma {:induction false} RetrieveAgreeing(docs: seq<DocumentRow>, chunks: seq<ChunkRow>, mappings: seq<MappingRow>,
                         files: map<string, FlatIndex>, provider: string, apiKey: string,
                         query: string, k: Option<int>, settings: Settings, b: EmbedBackends,
                         knn: (FlatIndex, Vector, int) -> Option<RawRow>)
    requires forall i :: 0 <= i < |docs| ==> docs[i].id == i + 1
    requires forall i :: 0 <= i < |chunks| ==> chunks[i].id == i + 1
    requires TablesReferential(docs, chunks, mappings)
    ensures var r := RetrieveSpec(docs, chunks, mappings, files, provider, apiKey, query, k, settings, b, knn);
      r.Failure? ==> r.error == NoQueryVector || r.error == SearchFailed
  {
    var vectors := EmbedResult(provider, apiKey, [query], b);
    if |vectors| > 0 {
      var hits := SearchIndex(OpenedIndex(files, settings.faissIndexPath, SearchDim), vectors[0], EffectiveK(k, settings.maxRetrieve), knn);
      if hits.Some? {
        ResolveReferential(docs, chunks, mappings, hits.value.0);
      }
    }
  }

  /** A k that is absent or 0 searches with the configured maximum: `retrieve` answers as if
      that maximum had been passed. */
  lemma RetrieveDefaultK(docs: seq<DocumentRow>, chunks: seq<ChunkRow>, mappings: seq<MappingRow>,
                         files: map<string, FlatIndex>, provider: string, apiKey: string,
                         query: string, settings: Settings, b: EmbedBackends,
                         knn: (FlatIndex, Vector, int) -> Option<RawRow>)
    ensures RetrieveSpec(docs, chunks, mappings, files, provider, apiKey, query, None, settings, b, knn) ==
      RetrieveSpec(docs, chunks, mappings, files, provider, apiKey, query, Some(settings.maxRetrieve), settings, b, knn)
    ensures RetrieveSpec(docs, chunks, mappings, files, provider, apiKey, query, Some(0), settings, b, knn) ==
      RetrieveSpec(docs, chunks, mappings, files, provider, apiKey, query, Some(settings.maxRetrieve), settings, b, knn)
  {
  }

  /** Without an index file at the configured path the new index is empty, so a query that
      has an embedding yields no rows, whatever its dimension, k and the tables. */
  lemma {:induction false} RetrieveWithoutIndex(docs: seq<DocumentRow>, chunks: seq<ChunkRow>, mappings: seq<MappingRow>,
                             files: map<string, FlatIndex>, provider: string, apiKey: string,
                             query: string, k: Option<int>, settings: Settings, b: EmbedBackends,
                             knn: (FlatIndex, Vector, int) -> Option<RawRow>)
    requires settings.faissIndexPath !in files
    requires |EmbedResult(provider, apiKey, [query], b)| > 0
    ensures RetrieveSpec(docs, chunks, mappings, files, provider, apiKey, query, k, settings, b, knn) == Success([])
  {
  }

  /** An ingestion of a new file that indexed its chunks, with the stores agreeing and ids
      as assigned before it, leaves tables of the shape `Appended` describes: the new
      document, its planned chunk rows and the rows mapping the new vector ids. With
      `AppendedHitResolves`, the id of its i-th new vector then resolves to its i-th chunk. */
  lemma {:induction false} IngestedShape(w: World, up: Upload, provider: string, apiKey: string, path: string, settings: Settings,
                        f: Foreign, units: seq<Unit>, plan: seq<(Option<int>, Chunk)>, i: int, o: (Result<int, IngestError>, World))
    requires o == IngestSpec(w, up, provider, apiKey, path, settings, f)
    requires forall j :: 0 <= j < |w.documents| ==> w.documents[j].fileHash != f.sha256(up.content)
    requires forall j :: 0 <= j < |w.documents| ==> w.documents[j].id == j + 1
    requires forall j :: 0 <= j < |w.chunks| ==> w.chunks[j].id == j + 1
    requires Extracted(f, up.content, DocType(up.pathName)) == Some(units)
    requires settings.chunkOverlap < settings.chunkSize
    requires plan == Plan(units, f, settings.chunkSize, settings.chunkOverlap)
    requires Agree(w, path)
    requires |EmbedResult(provider, apiKey, PlannedTexts(w, units, settings, f), f.backends)| > 0
    requires Accepts(OpenedIndex(w.files, path, |EmbedResult(provider, apiKey, PlannedTexts(w, units, settings, f), f.backends)[0]|).d,
                     EmbedResult(provider, apiKey, PlannedTexts(w, units, settings, f), f.backends))
    requires 0 <= i < |plan|
    requires i < |EmbedResult(provider, apiKey, PlannedTexts(w, units, settings, f), f.backends)|
    ensures Appended(o.1, w, NewDocument(w, up, f), plan, NTotalAt(w.files, path), i)
  {
    var vectors := EmbedResult(provider, apiKey, PlannedTexts(w, units, settings, f), f.backends);
    IngestSpecIndexed(w, up, provider, apiKey, path, settings, f, units);
    IndexedMappingFound(w, plan, vectors, path, i);
    AppendedShape(o.1, w, NewDocument(w, up, f), plan, NTotalAt(w.files, path), i);
  }

  /** Vector id fid resolves, in the tables of `after`, to the metadata row `meta`. */
  predicate HitResolves(after: World, fid: int, meta: ChunkMetadata) {
    Resolve(after.documents, after.chunks, after.mappings, fid) == Success(Some(meta))
  }

  /** The lookup of vector id v in the mapping table finds the row pairing it with chunk cid. */
  predicate MapsVector(mappings: seq<MappingRow>, v: int, cid: int) {
    MappingByVector(mappings, v) == Some(MappingRow(cid, v))
  }

  /** The mapping table holds, below position `start`, only vector ids below `n0`, and at
      positions `start + j` for `j <= i` the row pairing chunk `cid0 + j` with vector `n0 + j`. */
  predicate NewMappingRows(mapped: seq<MappingRow>, start: int, n0: int, cid0: int, i: int) {
    && 0 <= start && 0 <= i && start + i < |mapped|
    && (forall j :: 0 <= j < start ==> mapped[j].vectorId < n0)
    && (forall j :: start <= j <= start + i ==> mapped[j] == MappingRow(cid0 + (j - start), n0 + (j - start)))
  }

  /** The tables of `after` hold ids as assigned; the document after those of `before` is
      `newDoc`; the chunk row after the first i new ones is the i-th planned chunk of it; and
      the mapping table has the new rows of `NewMappingRows` from vector id `n0`. */
  predicate Appended(after: World, before: World, newDoc: DocumentRow, plan: seq<(Option<int>, Chunk)>, n0: int, i: int) {
    && 0 <= i < |plan|
    && (forall j :: 0 <= j < |after.documents| ==> after.documents[j].id == j + 1)
    && |before.documents| < |after.documents| && after.documents[|before.documents|] == newDoc
    && (forall j :: 0 <= j < |after.chunks| ==> after.chunks[j].id == j + 1)
    && |before.chunks| + i < |after.chunks|
    && after.chunks[|before.chunks| + i] ==
         ChunkRow(|before.chunks| + 1 + i, newDoc.id, i, plan[i].1.text, plan[i].0, plan[i].0, plan[i].1.tokenCount)
    && NewMappingRows(after.mappings, |before.mappings|, n0, |before.chunks| + 1, i)
  }

  /** Appending a document with the next id and its planned chunk rows to tables whose ids
      are as assigned, and mapping rows as `NewMappingRows` says, gives that shape. */
  lemma {:induction false} AppendedShape(after: World, before: World, newDoc: DocumentRow, plan: seq<(Option<int>, Chunk)>, n0: int, i: int)
    requires forall j :: 0 <= j < |before.documents| ==> before.documents[j].id == j + 1
    requires forall j :: 0 <= j < |before.chunks| ==> before.chunks[j].id == j + 1
    requires newDoc.id == |before.documents| + 1
    requires 0 <= i < |plan|
    requires after.documents == before.documents + [newDoc]
    requires after.chunks == before.chunks + PlannedRows(newDoc.id, |before.chunks| + 1, 0, plan)
    requires NewMappingRows(after.mappings, |before.mappings|, n0, |before.chunks| + 1, i)
    ensures Appended(after, before, newDoc, plan, n0, i)
  {
    var rows := PlannedRows(newDoc.id, |before.chunks| + 1, 0, plan);
    assert after.chunks[..|before.chunks|] == before.chunks;
    assert forall q :: 0 <= q < |plan| ==> after.chunks[|before.chunks| + q] == rows[q];
    PlannedIdsAssigned(before.chunks, after.chunks, plan, newDoc.id);
    forall j | 0 <= j < |after.documents|
      ensures after.documents[j].id == j + 1
    {
      if j < |before.documents| {
        assert after.documents[j] == before.documents[j];
      }
    }
  }

  /** In tables of that shape, vector id `n0 + i` resolves to the i-th planned chunk of the
      new document. */
  lemma {:induction false} AppendedHitResolves(after: World, before: World, newDoc: DocumentRow,
                                               plan: seq<(Option<int>, Chunk)>, n0: int, i: int)
    requires Appended(after, before, newDoc, plan, n0, i)
    ensures HitResolves(after, n0 + i, ChunkMetadata(newDoc.id, newDoc.filename, plan[i].0, |before.chunks| + 1 + i, Snippet(plan[i].1.text)))
  {
    var c := after.chunks[|before.chunks| + i];
    ChunkByIdAt(after.chunks, |before.chunks| + i);
    DocumentByIdAt(after.documents, |before.documents|);
    NewRowMapped(after.mappings, |before.mappings|, n0, |before.chunks| + 1, i);
    ResolveFound(after.documents, after.chunks, after.mappings, n0 + i, |before.chunks| + 1 + i, c, newDoc);
  }

  /** The lookup of the i-th new vector id finds its new row. */
  lemma {:induction false} NewRowMapped(mapped: seq<MappingRow>, start: int, n0: int, cid0: int, i: int)
    requires NewMappingRows(mapped, start, n0, cid0, i)
    ensures MapsVector(mapped, n0 + i, cid0 + i)
  {
    assert mapped[start + i] == MappingRow(cid0 + i, n0 + i);
    assert forall j :: 0 <= j < start + i ==> mapped[j].vectorId != n0 + i;
    MappingByVectorFirst(mapped, start + i, n0 + i);
  }

  /** The i-th new vector id is mapped to the i-th new chunk, after the stored rows. */
  lemma {:induction false} IndexedMappingFound(w: World, plan: seq<(Option<int>, Chunk)>, vectors: seq<Vector>, path: string, i: int)
    requires Agree(w, path)
    requires |vectors| > 0 && Accepts(OpenedIndex(w.files, path, |vectors[0]|).d, vectors)
    requires 0 <= i < |plan| && i < |vectors|
    ensures NewMappingRows(IndexedMappings(w.mappings, w.files, path, Pending(|w.chunks| + 1, plan), vectors),
                           |w.mappings|, NTotalAt(w.files, path), |w.chunks| + 1, i)
  {
    var first := |w.chunks| + 1;
    var pending := Pending(first, plan);
    var n0 := NTotalAt(w.files, path);
    var after := IndexedMappings(w.mappings, w.files, path, pending, vectors);
    AcceptedMappings(w.mappings, w.files, path, pending, first, vectors);
    forall j | 0 <= j < |w.mappings|
      ensures after[j].vectorId < n0
    {
      assert after[j] == after[..|w.mappings|][j];
    }
  }

  /** A hit whose mapping, chunk and document are all found resolves to their metadata. */
  lemma {:induction false} ResolveFound(docs: seq<DocumentRow>, chunks: seq<ChunkRow>, mappings: seq<MappingRow>, v: int, cid: int, c: ChunkRow, d: DocumentRow)
    requires MapsVector(mappings, v, cid)
    requires ChunkById(chunks, cid) == Some(c) && c.id == cid
    requires DocumentById(docs, c.documentId) == Some(d)
    ensures Resolve(docs, chunks, mappings, v) == Success(Some(ChunkMetadata(d.id, d.filename, c.pageStart, c.id, Snippet(c.text))))
  {
  }

  /** The first row naming a vector id is the one a lookup finds. */
  lemma {:induction false} MappingByVectorFirst(rows: seq<MappingRow>, i: int, v: int)
    requires 0 <= i < |rows| && rows[i].vectorId == v
    requires forall j :: 0 <= j < i ==> rows[j].vectorId != v
    ensures MappingByVector(rows, v) == Some(rows[i])
    decreases i
  {
    if i > 0 {
      MappingByVectorFirst(rows[1..], i - 1, v);
    }
  }
}
