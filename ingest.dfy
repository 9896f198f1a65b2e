/** Ingestion of one uploaded file (backend/app/services/ingest_service.py): deduplication by
    content hash, the document row, page extraction, chunk rows, one batched embedding call,
    the index append and the chunk-to-vector mapping rows. */
module Ingest {
  import opened Common
  import opened Config
  import opened Chunking
  import opened VectorStore
  import opened Db
  import opened Embedding

  /** One extracted unit: its page number (None for DOCX) and its text. */
  datatype Unit = Unit(page: Option<int>, text: string)

  /** The foreign computations ingestion depends on; a parser yields None when it raises. */
  datatype Foreign = Foreign(
    sha256: seq<bv8> -> string,
    pdfPages: seq<bv8> -> Option<seq<string>>,
    docxParagraphs: seq<bv8> -> Option<seq<string>>,
    encode: string -> seq<int>,
    decode: seq<int> -> string,
    backends: EmbedBackends)

  /** The exceptions that end an ingestion after its document row went in. */
  datatype IngestError =
    | ExtractionFailed
    | ChunkingRejected
    | NoEmbeddings
    | IndexRejected(reason: AddError)
    | MappingRejected

  // ---------------------------------------------------------------------------
  // Document type

  /** `Path.suffix` of a final path component: from the last dot on, unless that dot is the
      first or the last character. */
  function Suffix(name: string): (r: string)
    ensures r == "" || (r[0] == '.' && '.' !in r[1..])
  {
    var i := LastIndexOf(name, '.');
    if 0 < i < |name| - 1 then name[i..] else ""
  }

  /** "pdf" when the lowercased suffix is ".pdf", "docx" for every other suffix. */
  function DocType(name: string): (r: string)
    ensures r == "pdf" || r == "docx"
  {
    if Lower(Suffix(name)) == ".pdf" then "pdf" else "docx"
  }

  /** For a name `stem.ext` with a non-empty stem and a non-empty extension without dots, the
      suffix is ".ext", and the type is "pdf" exactly when the extension lowercases to "pdf". */
  lemma {:induction false} DocTypeOfExtension(stem: string, ext: string)
    requires |stem| > 0 && |ext| > 0 && '.' !in ext
    ensures Suffix(stem + "." + ext) == "." + ext
    ensures DocType(stem + "." + ext) == "pdf" <==> Lower(ext) == "pdf"
  {
    var name := stem + "." + ext;
    assert name[|stem|] == '.';
    assert forall k :: |stem| < k < |name| ==> name[k] == ext[k - |stem| - 1];
    assert LastIndexOf(name, '.') == |stem|;
    assert name[|stem|..] == "." + ext;
    var l := Lower("." + ext);
    assert l == "." + Lower(ext) by {
      assert l[0] == '.';
      assert forall k :: 0 <= k < |ext| ==> l[k + 1] == Lower(ext)[k];
    }
    if l == ".pdf" {
      assert Lower(ext) == l[1..];
    }
  }

  /** A name without a dot has no suffix, so it is taken as DOCX. */
  lemma {:induction false} NoDotIsDocx(name: string)
    requires '.' !in name
    ensures Suffix(name) == "" && DocType(name) == "docx"
  {
  }

  // ---------------------------------------------------------------------------
  // Extraction

  /** `_extract_pdf`: one unit per page, numbered from 1 in page order. */
  method ExtractPdf(pages: seq<string>) returns (units: seq<Unit>)
    ensures |units| == |pages|
    ensures forall i :: 0 <= i < |pages| ==> units[i] == Unit(Some(i + 1), pages[i])
  {
    units := [];
    var i := 0;
    while i < |pages|
      invariant 0 <= i <= |pages|
      invariant |units| == i
      invariant forall k :: 0 <= k < i ==> units[k] == Unit(Some(k + 1), pages[k])
    {
      units := units + [Unit(Some(i + 1), pages[i])];
      i := i + 1;
    }
  }

  /** The units `_extract_pdf` yields, as a value. */
  function PdfUnits(pages: seq<string>): seq<Unit> {
    seq(|pages|, i requires 0 <= i < |pages| => Unit(Some(i + 1), pages[i]))
  }

  /** Python's `str.isspace` on one character. */
  predicate IsSpace(c: char) {
    || ('\t' <= c <= '\r') || ('\U{1c}' <= c <= '\U{1f}') || c == ' '
    || c == '\U{85}' || c == '\U{a0}' || c == '\U{1680}' || ('\U{2000}' <= c <= '\U{200a}')
    || c == '\U{2028}' || c == '\U{2029}' || c == '\U{202f}' || c == '\U{205f}' || c == '\U{3000}'
  }

  /** `p.text.strip()` is non-empty. */
  predicate NonBlank(s: string) {
    exists i :: 0 <= i < |s| && !IsSpace(s[i])
  }

  function KeepParagraph(p: string): Option<string> {
    if NonBlank(p) then Some(p) else None
  }

  /** `_extract_docx`: a single unit without a page, holding the non-blank paragraphs joined by
      newlines. */
  function ExtractDocx(paragraphs: seq<string>): (r: seq<Unit>)
    ensures |r| == 1 && r[0].page == None
  {
    [Unit(None, Join(FilterMap(paragraphs, KeepParagraph), "\n"))]
  }

  /** The DOCX text is made of exactly the non-blank paragraphs, in document order; when none of
      them contains a newline, splitting the text at newlines gives them back. */
  lemma {:induction false} DocxParagraphs(paragraphs: seq<string>)
    ensures var kept := FilterMap(paragraphs, KeepParagraph);
      var ps := KeptPositions(paragraphs, KeepParagraph);
      && ExtractDocx(paragraphs)[0].text == Join(kept, "\n")
      && |kept| == |ps|
      && (forall j :: 0 <= j < |ps| ==> ps[j] < |paragraphs| && kept[j] == paragraphs[ps[j]])
      && (forall j, k :: 0 <= j < k < |ps| ==> ps[j] < ps[k])
      && (forall i :: 0 <= i < |paragraphs| ==> (NonBlank(paragraphs[i]) <==> i in ps))
      && (|kept| > 0 && (forall j :: 0 <= j < |kept| ==> '\n' !in kept[j]) ==>
            SplitOn(ExtractDocx(paragraphs)[0].text, '\n') == kept)
  {
    FilterMapPositions(paragraphs, KeepParagraph);
    var kept := FilterMap(paragraphs, KeepParagraph);
    var ps := KeptPositions(paragraphs, KeepParagraph);
    forall j | 0 <= j < |ps|
      ensures kept[j] == paragraphs[ps[j]]
    {
      assert KeepParagraph(paragraphs[ps[j]]) == Some(kept[j]);
    }
    forall i | 0 <= i < |paragraphs|
      ensures NonBlank(paragraphs[i]) <==> i in ps
    {
      assert KeepParagraph(paragraphs[i]).Some? <==> i in ps;
    }
    if |kept| > 0 && (forall j :: 0 <= j < |kept| ==> '\n' !in kept[j]) {
      SplitJoin(kept, '\n');
    }
  }

  /** The units extraction yields for the type, or None when the parser raises. */
  function Extracted(f: Foreign, content: seq<bv8>, docType: string): Option<seq<Unit>> {
    if docType == "pdf" then
      match f.pdfPages(content) case None => None case Some(pages) => Some(PdfUnits(pages))
    else
      match f.docxParagraphs(content) case None => None case Some(paragraphs) => Some(ExtractDocx(paragraphs))
  }


  // ---------------------------------------------------------------------------
  // Chunk rows

  /** A unit's chunks, each paired with the unit's page. */
  function Paged(page: Option<int>, chunks: seq<Chunk>): (r: seq<(Option<int>, Chunk)>)
    ensures |r| == |chunks|
  {
    seq(|chunks|, k requires 0 <= k < |chunks| => (page, chunks[k]))
  }

  /** The chunks of one unit, each with the unit's page. */
  function UnitPlan(u: Unit, f: Foreign, chunkSize: int, overlap: int): seq<(Option<int>, Chunk)>
    requires overlap < chunkSize
  {
    Paged(u.page, Chunks(f.encode, f.decode, u.text, chunkSize, overlap))
  }

  /** The chunks of all units, in unit order and chunk order within a unit. */
  function Plan(units: seq<Unit>, f: Foreign, chunkSize: int, overlap: int): seq<(Option<int>, Chunk)>
    requires overlap < chunkSize
  {
    if |units| == 0 then []
    else Plan(units[..|units| - 1], f, chunkSize, overlap) + UnitPlan(units[|units| - 1], f, chunkSize, overlap)
  }

  /** The chunk rows for a run of planned chunks: ids from `firstId`, ordinals from
      `firstIndex`, the document id, and both page bounds set to the unit's page. */
  function PlannedRows(docId: int, firstId: int, firstIndex: int, plan: seq<(Option<int>, Chunk)>): (r: seq<ChunkRow>)
    ensures |r| == |plan|
  {
    seq(|plan|, i requires 0 <= i < |plan| =>
      ChunkRow(firstId + i, docId, firstIndex + i, plan[i].1.text, plan[i].0, plan[i].0, plan[i].1.tokenCount))
  }

  /** `all_chunks`: the inserted ids with their texts. */
  function Pending(firstId: int, plan: seq<(Option<int>, Chunk)>): (r: seq<(int, string)>)
    ensures |r| == |plan|
  {
    seq(|plan|, i requires 0 <= i < |plan| => (firstId + i, plan[i].1.text))
  }

  lemma {:induction false} PlanSnoc(units: seq<Unit>, u: Unit, f: Foreign, chunkSize: int, overlap: int)
    requires overlap < chunkSize
    ensures Plan(units + [u], f, chunkSize, overlap) == Plan(units, f, chunkSize, overlap) + UnitPlan(u, f, chunkSize, overlap)
  {
    assert (units + [u])[..|units|] == units;
  }

  lemma {:induction false} PlannedAppend(docId: int, firstId: int, p: seq<(Option<int>, Chunk)>, q: seq<(Option<int>, Chunk)>)
    ensures PlannedRows(docId, firstId, 0, p + q) == PlannedRows(docId, firstId, 0, p) + PlannedRows(docId, firstId + |p|, |p|, q)
    ensures Pending(firstId, p + q) == Pending(firstId, p) + Pending(firstId + |p|, q)
  {
  }

  /** Whether some unit encodes to at least one token. */
  predicate HasTokens(units: seq<Unit>, f: Foreign) {
    exists k :: 0 <= k < |units| && |f.encode(units[k].text)| > 0
  }

  /** What the chunk loop leaves: the chunk table, and `all_chunks` or the exception. */
  function ChunkStep(chunks: seq<ChunkRow>, docId: int, units: seq<Unit>, f: Foreign, chunkSize: int, overlap: int)
    : (seq<ChunkRow>, Result<seq<(int, string)>, IngestError>)
  {
    if overlap >= chunkSize then (chunks, if HasTokens(units, f) then Failure(ChunkingRejected) else Success([]))
    else
      var plan := Plan(units, f, chunkSize, overlap);
      (chunks + PlannedRows(docId, |chunks| + 1, 0, plan), Success(Pending(|chunks| + 1, plan)))
  }

  /** The inner loop of `ingest_file` for one unit: a row per chunk, ordinals continuing from
      `globalIdx`. */
  method InsertUnitChunks(store: Store, docId: int, page: Option<int>, chunks: seq<Chunk>, globalIdx: int)
    returns (added: seq<(int, string)>)
    requires store.Valid()
    modifies store
    ensures store.Valid()
    ensures store.documents == old(store.documents) && store.mappings == old(store.mappings)
    ensures store.chunks == old(store.chunks) + PlannedRows(docId, |old(store.chunks)| + 1, globalIdx, Paged(page, chunks))
    ensures added == Pending(|old(store.chunks)| + 1, Paged(page, chunks))
    ensures old(store.Referential()) && 1 <= docId <= |store.documents| ==> store.Referential()
  {
    ghost var first := |store.chunks| + 1;
    added := [];
    var j := 0;
    while j < |chunks|
      invariant 0 <= j <= |chunks|
      invariant store.Valid()
      invariant store.documents == old(store.documents) && store.mappings == old(store.mappings)
      invariant store.chunks == old(store.chunks) + PlannedRows(docId, first, globalIdx, Paged(page, chunks[..j]))
      invariant added == Pending(first, Paged(page, chunks[..j]))
      invariant old(store.Referential()) && 1 <= docId <= |store.documents| ==> store.Referential()
    {
      assert Paged(page, chunks[..j + 1]) == Paged(page, chunks[..j]) + [(page, chunks[j])];
      var id := store.InsertChunk(docId, globalIdx + j, chunks[j].text, page, page, chunks[j].tokenCount);
      added := added + [(id, chunks[j].text)];
      j := j + 1;
    }
    assert chunks[..j] == chunks;
  }

  /** One turn of the chunk loop: the rows and `all_chunks` entries of unit u extend those of
      the units before it to those of the units up to and including it. */
  lemma {:induction false} ChunkLoopStep(chunks0: seq<ChunkRow>, docId: int, units: seq<Unit>, u: int, f: Foreign,
                                         chunkSize: int, overlap: int, plan: seq<(Option<int>, Chunk)>, chunks: seq<Chunk>,
                                         before: seq<ChunkRow>, after: seq<ChunkRow>, all: seq<(int, string)>, added: seq<(int, string)>)
    requires overlap < chunkSize && 0 <= u < |units|
    requires plan == Plan(units[..u], f, chunkSize, overlap)
    requires chunks == Chunks(f.encode, f.decode, units[u].text, chunkSize, overlap)
    requires before == chunks0 + PlannedRows(docId, |chunks0| + 1, 0, plan)
    requires all == Pending(|chunks0| + 1, plan)
    requires after == before + PlannedRows(docId, |before| + 1, |plan|, Paged(units[u].page, chunks))
    requires added == Pending(|before| + 1, Paged(units[u].page, chunks))
    ensures plan + UnitPlan(units[u], f, chunkSize, overlap) == Plan(units[..u + 1], f, chunkSize, overlap)
    ensures after == chunks0 + PlannedRows(docId, |chunks0| + 1, 0, plan + UnitPlan(units[u], f, chunkSize, overlap))
    ensures all + added == Pending(|chunks0| + 1, plan + UnitPlan(units[u], f, chunkSize, overlap))
  {
    var q := UnitPlan(units[u], f, chunkSize, overlap);
    var first := |chunks0| + 1;
    assert q == Paged(units[u].page, chunks);
    PlannedAppend(docId, first, plan, q);
    AppendAssoc(chunks0, PlannedRows(docId, first, 0, plan), PlannedRows(docId, first + |plan|, |plan|, q));
    TakeSnoc(units, u);
    PlanSnoc(units[..u], units[u], f, chunkSize, overlap);
  }

  /** The chunk loop of `ingest_file`: every unit is chunked in turn and every chunk becomes a
      row, in order; a configuration the corrected chunker refuses raises at the first unit
      that has a token, after the units before it gave no chunk. */
  method InsertChunkRows(store: Store, docId: int, units: seq<Unit>, f: Foreign, chunkSize: int, overlap: int)
    returns (r: Result<seq<(int, string)>, IngestError>)
    requires store.Valid()
    modifies store
    ensures store.Valid()
    ensures store.documents == old(store.documents) && store.mappings == old(store.mappings)
    ensures (store.chunks, r) == ChunkStep(old(store.chunks), docId, units, f, chunkSize, overlap)
    ensures old(store.Referential()) && 1 <= docId <= |store.documents| ==> store.Referential()
  {
    ghost var first := |store.chunks| + 1;
    ghost var plan: seq<(Option<int>, Chunk)> := [];
    var all: seq<(int, string)> := [];
    var globalIdx := 0;
    var u := 0;
    while u < |units|
      invariant 0 <= u <= |units|
      invariant store.Valid()
      invariant store.documents == old(store.documents) && store.mappings == old(store.mappings)
      invariant overlap >= chunkSize ==> plan == [] && forall k :: 0 <= k < u ==> |f.encode(units[k].text)| == 0
      invariant overlap < chunkSize ==> plan == Plan(units[..u], f, chunkSize, overlap)
      invariant store.chunks == old(store.chunks) + PlannedRows(docId, first, 0, plan)
      invariant all == Pending(first, plan)
      invariant globalIdx == |plan|
      invariant old(store.Referential()) && 1 <= docId <= |store.documents| ==> store.Referential()
    {
      var chunked := ChunkTextStopAtEnd(f.encode, f.decode, units[u].text, chunkSize, overlap);
      if chunked.None? {
        assert |f.encode(units[u].text)| > 0;
        assert store.chunks == old(store.chunks) + [];
        return Failure(ChunkingRejected);
      }
      ghost var before := store.chunks;
      var added := InsertUnitChunks(store, docId, units[u].page, chunked.value, globalIdx);
      if overlap < chunkSize {
        ChunkLoopStep(old(store.chunks), docId, units, u, f, chunkSize, overlap, plan, chunked.value, before, store.chunks, all, added);
        plan := plan + UnitPlan(units[u], f, chunkSize, overlap);
      } else {
        assert chunked.value == [] && Paged(units[u].page, chunked.value) == [];
        assert store.chunks == before + [];
      }
      all := all + added;
      globalIdx := globalIdx + |chunked.value|;
      u := u + 1;
    }
    assert units[..u] == units;
    return Success(all);
  }

  // ---------------------------------------------------------------------------
  // Embedding, index append and mapping rows

  /** `[c[1] for c in all_chunks]` */
  function Texts(pending: seq<(int, string)>): (r: seq<string>)
    ensures |r| == |pending|
  {
    seq(|pending|, i requires 0 <= i < |pending| => pending[i].1)
  }

  /** `[{"chunk_id": cid, "faiss_vector_id": vid} for (cid, _), vid in zip(all_chunks, faiss_ids)]`:
      as many rows as the shorter of the two lists. */
  function ZipIds(pending: seq<(int, string)>, ids: seq<int>): (r: seq<MappingRow>)
    ensures |r| == Min(|pending|, |ids|)
  {
    seq(Min(|pending|, |ids|), i requires 0 <= i < Min(|pending|, |ids|) => MappingRow(pending[i].0, ids[i]))
  }

  /** The index `FaissStore(path, dim=len(embeddings[0]))` opens. */
  function TargetIndex(files: map<string, FlatIndex>, path: string, vectors: seq<Vector>): FlatIndex
    requires |vectors| > 0
  {
    OpenedIndex(files, path, |vectors[0]|)
  }

  /** The persisted indexes after the append. */
  function IndexedFiles(files: map<string, FlatIndex>, path: string, vectors: seq<Vector>): map<string, FlatIndex> {
    if |vectors| == 0 then files
    else
      var idx := TargetIndex(files, path, vectors);
      if Accepts(idx.d, vectors) then files[path := FlatIndex(idx.d, idx.vectors + vectors)] else files
  }

  /** The mapping rows the ingestion tries to insert. */
  function IndexedRows(files: map<string, FlatIndex>, path: string, pending: seq<(int, string)>, vectors: seq<Vector>): seq<MappingRow> {
    if |vectors| == 0 then []
    else
      var idx := TargetIndex(files, path, vectors);
      if Accepts(idx.d, vectors) then ZipIds(pending, Range(idx.NTotal(), idx.NTotal() + |vectors|)) else []
  }

  /** The mapping table afterwards: the rows that went in before the first key violation. */
  function IndexedMappings(mappings: seq<MappingRow>, files: map<string, FlatIndex>, path: string,
                           pending: seq<(int, string)>, vectors: seq<Vector>): seq<MappingRow> {
    var rows := IndexedRows(files, path, pending, vectors);
    mappings + rows[..Insertable(mappings, rows)]
  }

  /** The exception the indexing step raises, if any: `embeddings[0]` of an empty list, an
      append the index refuses, or a key violation among the mapping rows. */
  function IndexOutcome(mappings: seq<MappingRow>, files: map<string, FlatIndex>, path: string,
                        pending: seq<(int, string)>, vectors: seq<Vector>): Option<IngestError> {
    if |vectors| == 0 then Some(NoEmbeddings)
    else if !Accepts(TargetIndex(files, path, vectors).d, vectors) then Some(IndexRejected(DimensionMismatch))
    else
      var rows := IndexedRows(files, path, pending, vectors);
      if Insertable(mappings, rows) == |rows| then None else Some(MappingRejected)
  }

  /** Every mapped vector id names a vector of the index persisted at the path. */
  predicate Consistent(mappings: seq<MappingRow>, files: map<string, FlatIndex>, path: string) {
    forall i :: 0 <= i < |mappings| ==> 0 <= mappings[i].vectorId < NTotalAt(files, path)
  }

  /** When every mapped vector id is below the persisted `ntotal` and the new chunk ids are
      consecutive and above every mapped chunk id, no mapping row breaks a key: all of them go
      in, the i-th new chunk paired with vector `ntotal + i` for `i < min(#chunks, #vectors)`,
      and afterwards every mapped vector id is still in the persisted index. */
  lemma {:induction false} IndexedConsistent(mappings: seq<MappingRow>, files: map<string, FlatIndex>, path: string,
                          pending: seq<(int, string)>, firstId: int, vectors: seq<Vector>)
    requires Consistent(mappings, files, path)
    requires forall i :: 0 <= i < |mappings| ==> mappings[i].chunkId < firstId
    requires forall j :: 0 <= j < |pending| ==> pending[j].0 == firstId + j
    ensures IndexOutcome(mappings, files, path, pending, vectors) != Some(MappingRejected)
    ensures IndexedMappings(mappings, files, path, pending, vectors) == mappings + IndexedRows(files, path, pending, vectors)
    ensures Consistent(IndexedMappings(mappings, files, path, pending, vectors), IndexedFiles(files, path, vectors), path)
    ensures |vectors| > 0 && Accepts(TargetIndex(files, path, vectors).d, vectors) ==>
      && |IndexedRows(files, path, pending, vectors)| == Min(|pending|, |vectors|)
      && forall i :: 0 <= i < |IndexedRows(files, path, pending, vectors)| ==>
           IndexedRows(files, path, pending, vectors)[i] == MappingRow(firstId + i, NTotalAt(files, path) + i)
  {
    var rows := IndexedRows(files, path, pending, vectors);
    if |vectors| > 0 && Accepts(TargetIndex(files, path, vectors).d, vectors) {
      AcceptedRows(files, path, pending, firstId, vectors);
      FreshRowsInsertable(mappings, rows, firstId, NTotalAt(files, path));
      assert rows[..|rows|] == rows;
    }
  }

  /** An accepted append pairs the i-th pending chunk with vector id `ntotal + i`. */
  lemma {:induction false} AcceptedRows(files: map<string, FlatIndex>, path: string,
                                        pending: seq<(int, string)>, firstId: int, vectors: seq<Vector>)
    requires forall j :: 0 <= j < |pending| ==> pending[j].0 == firstId + j
    requires |vectors| > 0 && Accepts(TargetIndex(files, path, vectors).d, vectors)
    ensures |IndexedRows(files, path, pending, vectors)| == Min(|pending|, |vectors|)
    ensures forall i :: 0 <= i < |IndexedRows(files, path, pending, vectors)| ==>
      IndexedRows(files, path, pending, vectors)[i] == MappingRow(firstId + i, NTotalAt(files, path) + i)
  {
    var idx := TargetIndex(files, path, vectors);
    assert idx.NTotal() == NTotalAt(files, path);
  }

  /** Rows with consecutive chunk ids from `firstId` and vector ids from `n0`, above every
      stored chunk id and vector id, all go in. */
  lemma {:induction false} FreshRowsInsertable(mappings: seq<MappingRow>, rows: seq<MappingRow>, firstId: int, n0: int)
    requires forall i :: 0 <= i < |mappings| ==> mappings[i].chunkId < firstId && mappings[i].vectorId < n0
    requires forall i :: 0 <= i < |rows| ==> rows[i] == MappingRow(firstId + i, n0 + i)
    ensures Insertable(mappings, rows) == |rows|
  {
    forall j | 0 <= j < |rows|
      ensures !Conflicts(mappings, rows[j])
    {
      if Conflicts(mappings, rows[j]) {
        var i :| 0 <= i < |mappings| && (mappings[i].chunkId == rows[j].chunkId || mappings[i].vectorId == rows[j].vectorId);
        assert false;
      }
    }
    InsertableAll(mappings, rows);
  }

  /** The block under `if all_chunks:`: one batched `embed`, `FaissStore(path, dim)` with the
      first vector's length, `add`, and the zipped mapping rows. */
  method IndexChunks(store: Store, disk: Disk, client: EmbeddingClient, pending: seq<(int, string)>,
                     path: string, b: EmbedBackends)
    returns (err: Option<IngestError>)
    requires store.Valid() && |pending| > 0
    modifies store, disk, client
    ensures store.Valid()
    ensures store.documents == old(store.documents) && store.chunks == old(store.chunks)
    ensures client.localModel == LocalAfterEmbed(old(client.localModel), client.provider, client.apiKey, Texts(pending), b)
    ensures disk.files == IndexedFiles(old(disk.files), path, EmbedResult(client.provider, client.apiKey, Texts(pending), b))
    ensures store.mappings ==
      IndexedMappings(old(store.mappings), old(disk.files), path, pending, EmbedResult(client.provider, client.apiKey, Texts(pending), b))
    ensures err == IndexOutcome(old(store.mappings), old(disk.files), path, pending, EmbedResult(client.provider, client.apiKey, Texts(pending), b))
  {
    var vectors := client.Embed(Texts(pending), b);
    if |vectors| == 0 {
      return Some(NoEmbeddings);
    }
    var faiss := new FaissStore(disk, path, |vectors[0]|);
    var added := faiss.Add(vectors);
    if added.Failure? {
      return Some(IndexRejected(added.error));
    }
    var rows := ZipIds(pending, added.value);
    var mapped := store.InsertMappings(rows);
    if mapped.Failure? {
      return Some(MappingRejected);
    }
    return None;
  }

  // ---------------------------------------------------------------------------
  // ingest_file

  /** The arguments of `ingest_file`: the uploaded bytes, the final component of the path they
      were written to (which gives the suffix), and the document's metadata. */
  datatype Upload = Upload(content: seq<bv8>, pathName: string, filename: string,
                           sourceUnit: Option<string>, year: Option<int>, tags: Option<Json>)

  /** Everything ingestion can change: the three tables, the persisted indexes and the
      embedding client's local model. */
  datatype World = World(documents: seq<DocumentRow>, chunks: seq<ChunkRow>, mappings: seq<MappingRow>,
                         files: map<string, FlatIndex>, localModel: Option<LocalModel>)

  /** `ingest_file` as a function of the world it starts from: its result and the world it
      leaves. An exception ends the ingestion without undoing the rows already inserted. */
  function IngestSpec(w: World, up: Upload, provider: string, apiKey: string, path: string,
                      settings: Settings, f: Foreign): (Result<int, IngestError>, World)
  {
    var h := f.sha256(up.content);
    match DocumentByHash(w.documents, h)
    case Some(row) => (Success(row.id), w)
    case None =>
      var docId := |w.documents| + 1;
      var docType := DocType(up.pathName);
      var w1 := w.(documents := w.documents + [DocumentRow(docId, up.filename, h, docType, up.sourceUnit, up.year, up.tags)]);
      match Extracted(f, up.content, docType)
      case None => (Failure(ExtractionFailed), w1)
      case Some(units) =>
        var step := ChunkStep(w.chunks, docId, units, f, settings.chunkSize, settings.chunkOverlap);
        var w2 := w1.(chunks := step.0);
        match step.1
        case Failure(e) => (Failure(e), w2)
        case Success(pending) =>
          if |pending| == 0 then (Success(docId), w2)
          else
            var vectors := EmbedResult(provider, apiKey, Texts(pending), f.backends);
            var w3 := w2.(mappings := IndexedMappings(w.mappings, w.files, path, pending, vectors),
                          files := IndexedFiles(w.files, path, vectors),
                          localModel := LocalAfterEmbed(w.localModel, provider, apiKey, Texts(pending), f.backends));
            match IndexOutcome(w.mappings, w.files, path, pending, vectors)
            case None => (Success(docId), w3)
            case Some(e) => (Failure(e), w3)
  }

  /** `ingest_file`, step by step on the stores. */
  method IngestFile(store: Store, disk: Disk, client: EmbeddingClient, up: Upload,
                    faissIndexPath: string, settings: Settings, f: Foreign)
    returns (r: Result<int, IngestError>)
    requires store.Valid()
    modifies store, disk, client
    ensures store.Valid()
    ensures (r, World(store.documents, store.chunks, store.mappings, disk.files, client.localModel)) ==
      IngestSpec(World(old(store.documents), old(store.chunks), old(store.mappings), old(disk.files), old(client.localModel)),
                 up, client.provider, client.apiKey, faissIndexPath, settings, f)
  {
    var h := f.sha256(up.content);
    var existing := store.FindDocumentByHash(h);
    if existing.Some? {
      return Success(existing.value);
    }
    var docType := DocType(up.pathName);
    var inserted := store.InsertDocument(up.filename, h, docType, up.sourceUnit, up.year, up.tags);
    var docId := inserted.value;
    var units: seq<Unit>;
    if docType == "pdf" {
      var pages := f.pdfPages(up.content);
      if pages.None? {
        return Failure(ExtractionFailed);
      }
      units := ExtractPdf(pages.value);
      assert units == PdfUnits(pages.value);
    } else {
      var paragraphs := f.docxParagraphs(up.content);
      if paragraphs.None? {
        return Failure(ExtractionFailed);
      }
      units := ExtractDocx(paragraphs.value);
    }
    var chunked := InsertChunkRows(store, docId, units, f, settings.chunkSize, settings.chunkOverlap);
    if chunked.Failure? {
      return Failure(chunked.error);
    }
    var pending := chunked.value;
    if |pending| > 0 {
      var err := IndexChunks(store, disk, client, pending, faissIndexPath, f.backends);
      if err.Some? {
        return Failure(err.value);
      }
    }
    return Success(docId);
  }

  // ---------------------------------------------------------------------------
  // Properties of ingestion

  /** With ids as assigned, the row a hash finds sits at position id - 1. */
  lemma {:induction false} DocumentByHashAt(docs: seq<DocumentRow>, h: string)
    requires forall i :: 0 <= i < |docs| ==> docs[i].id == i + 1
    requires DocumentByHash(docs, h).Some?
    ensures 1 <= DocumentByHash(docs, h).value.id <= |docs|
    ensures docs[DocumentByHash(docs, h).value.id - 1] == DocumentByHash(docs, h).value
  {
    var row := DocumentByHash(docs, h).value;
    var i :| 0 <= i < |docs| && docs[i] == row;
  }

  /** A hash that is not stored finds the row appended with it. */
  lemma {:induction false} DocumentByHashAppend(docs: seq<DocumentRow>, row: DocumentRow, h: string)
    requires DocumentByHash(docs, h).None? && row.fileHash == h
    ensures DocumentByHash(docs + [row], h) == Some(row)
    decreases |docs|
  {
    if |docs| > 0 {
      assert (docs + [row])[1..] == docs[1..] + [row];
      DocumentByHashAppend(docs[1..], row, h);
    }
  }

  /** The document row `ingest_file` inserts for a new hash. */
  function NewDocument(w: World, up: Upload, f: Foreign): DocumentRow {
    DocumentRow(|w.documents| + 1, up.filename, f.sha256(up.content), DocType(up.pathName), up.sourceUnit, up.year, up.tags)
  }

  /** A file whose content hash is already stored changes nothing and yields the id of the
      stored document with that hash. */
  lemma {:induction false} IngestDuplicate(w: World, up: Upload, provider: string, apiKey: string, path: string, settings: Settings, f: Foreign)
    requires forall i :: 0 <= i < |w.documents| ==> w.documents[i].id == i + 1
    requires exists i :: 0 <= i < |w.documents| && w.documents[i].fileHash == f.sha256(up.content)
    ensures IngestSpec(w, up, provider, apiKey, path, settings, f).1 == w
    ensures IngestSpec(w, up, provider, apiKey, path, settings, f).0.Success?
    ensures 1 <= IngestSpec(w, up, provider, apiKey, path, settings, f).0.value <= |w.documents|
    ensures w.documents[IngestSpec(w, up, provider, apiKey, path, settings, f).0.value - 1].fileHash == f.sha256(up.content)
  {
    DocumentByHashAt(w.documents, f.sha256(up.content));
  }

  /** A new hash gets a document row with the next id, which stays even when a later step
      raises; extraction that raises leaves only that row. With `overlap >= chunkSize` no
      chunk row, index or mapping changes: the call raises when some unit has a token and
      succeeds when none has. */
  lemma {:induction false} IngestNewDocument(w: World, up: Upload, provider: string, apiKey: string, path: string, settings: Settings, f: Foreign)
    requires forall i :: 0 <= i < |w.documents| ==> w.documents[i].fileHash != f.sha256(up.content)
    ensures IngestSpec(w, up, provider, apiKey, path, settings, f).1.documents == w.documents + [NewDocument(w, up, f)]
    ensures IngestSpec(w, up, provider, apiKey, path, settings, f).0.Success? ==>
      IngestSpec(w, up, provider, apiKey, path, settings, f).0.value == |w.documents| + 1
    ensures Extracted(f, up.content, DocType(up.pathName)).None? ==>
      IngestSpec(w, up, provider, apiKey, path, settings, f) ==
        (Failure(ExtractionFailed), w.(documents := w.documents + [NewDocument(w, up, f)]))
    ensures settings.chunkOverlap >= settings.chunkSize ==>
      IngestSpec(w, up, provider, apiKey, path, settings, f).1 == w.(documents := w.documents + [NewDocument(w, up, f)])
    ensures settings.chunkOverlap >= settings.chunkSize && Extracted(f, up.content, DocType(up.pathName)).Some? ==>
      IngestSpec(w, up, provider, apiKey, path, settings, f).0 ==
        if HasTokens(Extracted(f, up.content, DocType(up.pathName)).value, f) then Failure(ChunkingRejected)
        else Success(|w.documents| + 1)
  {
    assert DocumentByHash(w.documents, f.sha256(up.content)).None?;
  }

  /** The planned chunks of a PDF carry page numbers between 1 and the page count, in
      non-decreasing order; those of a DOCX carry no page. */
  lemma {:induction false} PlanPages(pages: seq<string>, paragraphs: seq<string>, f: Foreign, chunkSize: int, overlap: int)
    requires overlap < chunkSize
    ensures forall i :: 0 <= i < |Plan(PdfUnits(pages), f, chunkSize, overlap)| ==>
      Plan(PdfUnits(pages), f, chunkSize, overlap)[i].0.Some? &&
      1 <= Plan(PdfUnits(pages), f, chunkSize, overlap)[i].0.value <= |pages|
    ensures forall i, j :: 0 <= i <= j < |Plan(PdfUnits(pages), f, chunkSize, overlap)| ==>
      Plan(PdfUnits(pages), f, chunkSize, overlap)[i].0.value <= Plan(PdfUnits(pages), f, chunkSize, overlap)[j].0.value
    ensures forall i :: 0 <= i < |Plan(ExtractDocx(paragraphs), f, chunkSize, overlap)| ==>
      Plan(ExtractDocx(paragraphs), f, chunkSize, overlap)[i].0.None?
    decreases |pages|
  {
    var docx := ExtractDocx(paragraphs);
    assert docx[..0] == [];
    if |pages| > 0 {
      var n := |pages|;
      var units := PdfUnits(pages);
      assert units[..n - 1] == PdfUnits(pages[..n - 1]);
      PlanPages(pages[..n - 1], paragraphs, f, chunkSize, overlap);
      var front := Plan(PdfUnits(pages[..n - 1]), f, chunkSize, overlap);
      var last := UnitPlan(units[n - 1], f, chunkSize, overlap);
      assert Plan(units, f, chunkSize, overlap) == front + last;
      assert forall i :: 0 <= i < |last| ==> last[i].0 == Some(n);
    }
  }

  /** For a new hash and a chunk size above the overlap, the chunk rows appended are the
      planned chunks in order: consecutive ids after the last stored chunk, the new document's
      id, ordinals 0, 1, ... across all units, and both page bounds equal to the unit's page. */
  lemma {:induction false} IngestChunkRows(w: World, up: Upload, provider: string, apiKey: string, path: string, settings: Settings, f: Foreign,
                        units: seq<Unit>)
    requires forall i :: 0 <= i < |w.documents| ==> w.documents[i].fileHash != f.sha256(up.content)
    requires Extracted(f, up.content, DocType(up.pathName)) == Some(units)
    requires settings.chunkOverlap < settings.chunkSize
    ensures |IngestSpec(w, up, provider, apiKey, path, settings, f).1.chunks| ==
      |w.chunks| + |Plan(units, f, settings.chunkSize, settings.chunkOverlap)|
    ensures IngestSpec(w, up, provider, apiKey, path, settings, f).1.chunks[..|w.chunks|] == w.chunks
    ensures forall i :: 0 <= i < |Plan(units, f, settings.chunkSize, settings.chunkOverlap)| ==>
      IngestSpec(w, up, provider, apiKey, path, settings, f).1.chunks[|w.chunks| + i] ==
        ChunkRow(|w.chunks| + 1 + i, |w.documents| + 1, i,
                 Plan(units, f, settings.chunkSize, settings.chunkOverlap)[i].1.text,
                 Plan(units, f, settings.chunkSize, settings.chunkOverlap)[i].0,
                 Plan(units, f, settings.chunkSize, settings.chunkOverlap)[i].0,
                 Plan(units, f, settings.chunkSize, settings.chunkOverlap)[i].1.tokenCount)
  {
    assert DocumentByHash(w.documents, f.sha256(up.content)).None?;
    var plan := Plan(units, f, settings.chunkSize, settings.chunkOverlap);
    assert IngestSpec(w, up, provider, apiKey, path, settings, f).1.chunks ==
      w.chunks + PlannedRows(|w.documents| + 1, |w.chunks| + 1, 0, plan);
    AppendedChunkRows(w.chunks, |w.documents| + 1, plan);
  }

  /** The planned rows appended after the stored chunk rows sit at the positions after them. */
  lemma {:induction false} AppendedChunkRows(chunks: seq<ChunkRow>, docId: int, plan: seq<(Option<int>, Chunk)>)
    ensures var after := chunks + PlannedRows(docId, |chunks| + 1, 0, plan);
      && |after| == |chunks| + |plan|
      && after[..|chunks|] == chunks
      && forall i :: 0 <= i < |plan| ==>
           after[|chunks| + i] == ChunkRow(|chunks| + 1 + i, docId, i, plan[i].1.text, plan[i].0, plan[i].0, plan[i].1.tokenCount)
  {
    var rows := PlannedRows(docId, |chunks| + 1, 0, plan);
    assert (chunks + rows)[..|chunks|] == chunks;
  }

  /** A new file whose units yield no chunk gets its document row and nothing else, and the
      call succeeds with the new id. */
  lemma {:induction false} IngestWithoutChunks(w: World, up: Upload, provider: string, apiKey: string, path: string, settings: Settings, f: Foreign,
                           units: seq<Unit>)
    requires forall i :: 0 <= i < |w.documents| ==> w.documents[i].fileHash != f.sha256(up.content)
    requires Extracted(f, up.content, DocType(up.pathName)) == Some(units)
    requires settings.chunkOverlap < settings.chunkSize
    requires |Plan(units, f, settings.chunkSize, settings.chunkOverlap)| == 0
    ensures IngestSpec(w, up, provider, apiKey, path, settings, f) ==
      (Success(|w.documents| + 1), w.(documents := w.documents + [NewDocument(w, up, f)]))
  {
    assert DocumentByHash(w.documents, f.sha256(up.content)).None?;
    var plan := Plan(units, f, settings.chunkSize, settings.chunkOverlap);
    assert w.chunks + PlannedRows(|w.documents| + 1, |w.chunks| + 1, 0, plan) == w.chunks;
  }

  /** The embedding texts after chunking, which `embed` is given in one call. */
  function PlannedTexts(w: World, units: seq<Unit>, settings: Settings, f: Foreign): seq<string>
    requires settings.chunkOverlap < settings.chunkSize
  {
    Texts(Pending(|w.chunks| + 1, Plan(units, f, settings.chunkSize, settings.chunkOverlap)))
  }

  /** For a new hash whose extraction and chunking yield chunks, `ingest_file` ends with the
      indexing step: the document row, the chunk rows, then the embedding call, the index
      append and the mapping rows. */
  lemma {:induction false} IngestSpecIndexed(w: World, up: Upload, provider: string, apiKey: string, path: string, settings: Settings, f: Foreign,
                          units: seq<Unit>)
    requires forall i :: 0 <= i < |w.documents| ==> w.documents[i].fileHash != f.sha256(up.content)
    requires Extracted(f, up.content, DocType(up.pathName)) == Some(units)
    requires settings.chunkOverlap < settings.chunkSize
    requires |Plan(units, f, settings.chunkSize, settings.chunkOverlap)| > 0
    ensures var plan := Plan(units, f, settings.chunkSize, settings.chunkOverlap);
      var pending := Pending(|w.chunks| + 1, plan);
      var vectors := EmbedResult(provider, apiKey, Texts(pending), f.backends);
      IngestSpec(w, up, provider, apiKey, path, settings, f) ==
        (match IndexOutcome(w.mappings, w.files, path, pending, vectors)
         case None => Success(|w.documents| + 1)
         case Some(e) => Failure(e),
         World(w.documents + [NewDocument(w, up, f)],
               w.chunks + PlannedRows(|w.documents| + 1, |w.chunks| + 1, 0, plan),
               IndexedMappings(w.mappings, w.files, path, pending, vectors),
               IndexedFiles(w.files, path, vectors),
               LocalAfterEmbed(w.localModel, provider, apiKey, Texts(pending), f.backends)))
  {
    assert DocumentByHash(w.documents, f.sha256(up.content)).None?;
  }

  /** The indexing step when the stores agree (every foreign key resolves and every mapped
      vector id is in the persisted index): no mapping row breaks a key, and the local model
      ends as `embed` leaves it. */
  lemma {:induction false} IngestIndexes(w: World, up: Upload, provider: string, apiKey: string, path: string, settings: Settings, f: Foreign,
                      units: seq<Unit>)
    requires forall i :: 0 <= i < |w.documents| ==> w.documents[i].fileHash != f.sha256(up.content)
    requires Extracted(f, up.content, DocType(up.pathName)) == Some(units)
    requires settings.chunkOverlap < settings.chunkSize
    requires |Plan(units, f, settings.chunkSize, settings.chunkOverlap)| > 0
    requires TablesReferential(w.documents, w.chunks, w.mappings) && Consistent(w.mappings, w.files, path)
    ensures IngestSpec(w, up, provider, apiKey, path, settings, f).0 != Failure(MappingRejected)
    ensures IngestSpec(w, up, provider, apiKey, path, settings, f).1.localModel ==
      LocalAfterEmbed(w.localModel, provider, apiKey, PlannedTexts(w, units, settings, f), f.backends)
  {
    IngestSpecIndexed(w, up, provider, apiKey, path, settings, f, units);
    var plan := Plan(units, f, settings.chunkSize, settings.chunkOverlap);
    var pending := Pending(|w.chunks| + 1, plan);
    var vectors := EmbedResult(provider, apiKey, Texts(pending), f.backends);
    IndexedConsistent(w.mappings, w.files, path, pending, |w.chunks| + 1, vectors);
  }

  /** No vectors raise, and vectors of the wrong dimension raise, in both cases with the index
      and the mappings untouched. */
  lemma {:induction false} IngestIndexRefused(w: World, up: Upload, provider: string, apiKey: string, path: string, settings: Settings, f: Foreign,
                      units: seq<Unit>)
    requires forall i :: 0 <= i < |w.documents| ==> w.documents[i].fileHash != f.sha256(up.content)
    requires Extracted(f, up.content, DocType(up.pathName)) == Some(units)
    requires settings.chunkOverlap < settings.chunkSize
    requires |Plan(units, f, settings.chunkSize, settings.chunkOverlap)| > 0
    ensures var vectors := EmbedResult(provider, apiKey, PlannedTexts(w, units, settings, f), f.backends);
      |vectors| == 0 ==>
        && IngestSpec(w, up, provider, apiKey, path, settings, f).0 == Failure(NoEmbeddings)
        && IngestSpec(w, up, provider, apiKey, path, settings, f).1.mappings == w.mappings
        && IngestSpec(w, up, provider, apiKey, path, settings, f).1.files == w.files
    ensures var vectors := EmbedResult(provider, apiKey, PlannedTexts(w, units, settings, f), f.backends);
      |vectors| > 0 && !Accepts(OpenedIndex(w.files, path, |vectors[0]|).d, vectors) ==>
        && IngestSpec(w, up, provider, apiKey, path, settings, f).0 == Failure(IndexRejected(DimensionMismatch))
        && IngestSpec(w, up, provider, apiKey, path, settings, f).1.mappings == w.mappings
        && IngestSpec(w, up, provider, apiKey, path, settings, f).1.files == w.files
  {
    IngestSpecIndexed(w, up, provider, apiKey, path, settings, f, units);
    var pending := Pending(|w.chunks| + 1, Plan(units, f, settings.chunkSize, settings.chunkOverlap));
    var vectors := EmbedResult(provider, apiKey, Texts(pending), f.backends);
    assert IndexedRows(w.files, path, pending, vectors) == [] ==> IndexedMappings(w.mappings, w.files, path, pending, vectors) == w.mappings;
  }

  /** With vectors the index accepts, the ingestion succeeds with the new document's id and
      the index file grows by the vectors. */
  lemma {:induction false} IngestIndexAccepted(w: World, up: Upload, provider: string, apiKey: string, path: string, settings: Settings, f: Foreign,
                      units: seq<Unit>)
    requires forall i :: 0 <= i < |w.documents| ==> w.documents[i].fileHash != f.sha256(up.content)
    requires Extracted(f, up.content, DocType(up.pathName)) == Some(units)
    requires settings.chunkOverlap < settings.chunkSize
    requires |Plan(units, f, settings.chunkSize, settings.chunkOverlap)| > 0
    requires TablesReferential(w.documents, w.chunks, w.mappings) && Consistent(w.mappings, w.files, path)
    ensures var vectors := EmbedResult(provider, apiKey, PlannedTexts(w, units, settings, f), f.backends);
      |vectors| > 0 && Accepts(OpenedIndex(w.files, path, |vectors[0]|).d, vectors) ==>
        && IngestSpec(w, up, provider, apiKey, path, settings, f).0 == Success(|w.documents| + 1)
        && IngestSpec(w, up, provider, apiKey, path, settings, f).1.files ==
             w.files[path := FlatIndex(OpenedIndex(w.files, path, |vectors[0]|).d, OpenedIndex(w.files, path, |vectors[0]|).vectors + vectors)]
  {
    IngestSpecIndexed(w, up, provider, apiKey, path, settings, f, units);
    var pending := Pending(|w.chunks| + 1, Plan(units, f, settings.chunkSize, settings.chunkOverlap));
    var vectors := EmbedResult(provider, apiKey, Texts(pending), f.backends);
    assert PlannedTexts(w, units, settings, f) == Texts(pending);
    if |vectors| > 0 && Accepts(OpenedIndex(w.files, path, |vectors[0]|).d, vectors) {
      IndexedConsistent(w.mappings, w.files, path, pending, |w.chunks| + 1, vectors);
    }
  }

  /** With the stores agreeing and vectors the index accepts, the mapping table keeps its rows
      and gains, for as many rows as the shorter of chunks and vectors, the i-th new chunk
      mapped to vector `ntotal + i`. */
  lemma {:induction false} IngestIndexMappings(w: World, up: Upload, provider: string, apiKey: string, path: string, settings: Settings, f: Foreign,
                      units: seq<Unit>)
    requires forall i :: 0 <= i < |w.documents| ==> w.documents[i].fileHash != f.sha256(up.content)
    requires Extracted(f, up.content, DocType(up.pathName)) == Some(units)
    requires settings.chunkOverlap < settings.chunkSize
    requires |Plan(units, f, settings.chunkSize, settings.chunkOverlap)| > 0
    requires TablesReferential(w.documents, w.chunks, w.mappings) && Consistent(w.mappings, w.files, path)
    ensures var vectors := EmbedResult(provider, apiKey, PlannedTexts(w, units, settings, f), f.backends);
      |vectors| > 0 && Accepts(OpenedIndex(w.files, path, |vectors[0]|).d, vectors) ==>
        ExtendsMappings(IngestSpec(w, up, provider, apiKey, path, settings, f).1.mappings, w.mappings, |w.chunks| + 1,
                        NTotalAt(w.files, path), Min(|Plan(units, f, settings.chunkSize, settings.chunkOverlap)|, |vectors|))
  {
    IngestSpecIndexed(w, up, provider, apiKey, path, settings, f, units);
    var pending := Pending(|w.chunks| + 1, Plan(units, f, settings.chunkSize, settings.chunkOverlap));
    var vectors := EmbedResult(provider, apiKey, Texts(pending), f.backends);
    assert PlannedTexts(w, units, settings, f) == Texts(pending);
    assert IngestSpec(w, up, provider, apiKey, path, settings, f).1.mappings == IndexedMappings(w.mappings, w.files, path, pending, vectors);
    if |vectors| > 0 && Accepts(OpenedIndex(w.files, path, |vectors[0]|).d, vectors) {
      AcceptedMappings(w.mappings, w.files, path, pending, |w.chunks| + 1, vectors);
    }
  }

  /** `mapped` is the table `before` followed by m rows pairing chunk `firstId + i` with
      vector `n0 + i`. */
  predicate ExtendsMappings(mapped: seq<MappingRow>, before: seq<MappingRow>, firstId: int, n0: int, m: int) {
    && 0 <= m && |mapped| == |before| + m
    && mapped[..|before|] == before
    && forall i :: |before| <= i < |before| + m ==> mapped[i] == MappingRow(firstId + (i - |before|), n0 + (i - |before|))
  }

  /** The mapping table after an accepted append: the stored rows, then the i-th pending chunk
      paired with vector `ntotal + i`, for as many rows as the shorter of chunks and vectors. */
  lemma {:induction false} AcceptedMappings(mappings: seq<MappingRow>, files: map<string, FlatIndex>, path: string,
                                            pending: seq<(int, string)>, firstId: int, vectors: seq<Vector>)
    requires Consistent(mappings, files, path)
    requires forall i :: 0 <= i < |mappings| ==> mappings[i].chunkId < firstId
    requires forall j :: 0 <= j < |pending| ==> pending[j].0 == firstId + j
    requires |vectors| > 0 && Accepts(TargetIndex(files, path, vectors).d, vectors)
    ensures ExtendsMappings(IndexedMappings(mappings, files, path, pending, vectors), mappings, firstId,
                            NTotalAt(files, path), Min(|pending|, |vectors|))
  {
    IndexedConsistent(mappings, files, path, pending, firstId, vectors);
    var rows := IndexedRows(files, path, pending, vectors);
    var mapped := IndexedMappings(mappings, files, path, pending, vectors);
    assert mapped == mappings + rows;
    assert mapped[..|mappings|] == mappings;
    assert forall i :: |mappings| <= i < |mapped| ==> mapped[i] == rows[i - |mappings|];
  }

  /** The stores agree: every foreign key resolves and every mapped vector id is in the
      index persisted at the path. */
  predicate Agree(w: World, path: string) {
    TablesReferential(w.documents, w.chunks, w.mappings) && Consistent(w.mappings, w.files, path)
  }

  /** `after` only appends to `before`: stored rows are kept unchanged, the index at the path
      only grows and no other path is written. */
  predicate Grows(before: World, after: World, path: string) {
    && before.documents <= after.documents && before.chunks <= after.chunks && before.mappings <= after.mappings
    && NTotalAt(before.files, path) <= NTotalAt(after.files, path)
    && (forall p :: p in after.files && p != path ==> p in before.files && after.files[p] == before.files[p])
    && (forall p :: p in before.files ==> p in after.files)
  }

  /** The new chunk rows point at the new document. */
  lemma {:induction false} ChunkRowsReferential(w: World, docs: seq<DocumentRow>, docId: int, plan: seq<(Option<int>, Chunk)>)
    requires TablesReferential(w.documents, w.chunks, w.mappings)
    requires |w.documents| <= |docs| && 1 <= docId <= |docs|
    ensures TablesReferential(docs, w.chunks + PlannedRows(docId, |w.chunks| + 1, 0, plan), w.mappings)
  {
    var rows := PlannedRows(docId, |w.chunks| + 1, 0, plan);
    var chunks := w.chunks + rows;
    forall i | 0 <= i < |chunks|
      ensures 1 <= chunks[i].documentId <= |docs|
    {
      if i >= |w.chunks| {
        assert chunks[i] == rows[i - |w.chunks|];
      }
    }
  }

  /** The indexing step keeps the stores in agreement and only appends. */
  lemma {:induction false} IndexingPreserves(w: World, up: Upload, provider: string, apiKey: string, path: string, settings: Settings, f: Foreign,
                          units: seq<Unit>)
    requires forall i :: 0 <= i < |w.documents| ==> w.documents[i].fileHash != f.sha256(up.content)
    requires Extracted(f, up.content, DocType(up.pathName)) == Some(units)
    requires settings.chunkOverlap < settings.chunkSize
    requires |Plan(units, f, settings.chunkSize, settings.chunkOverlap)| > 0
    requires Agree(w, path)
    ensures Agree(IngestSpec(w, up, provider, apiKey, path, settings, f).1, path)
    ensures Grows(w, IngestSpec(w, up, provider, apiKey, path, settings, f).1, path)
    ensures IngestSpec(w, up, provider, apiKey, path, settings, f).0 != Failure(MappingRejected)
  {
    IngestSpecIndexed(w, up, provider, apiKey, path, settings, f, units);
    var plan := Plan(units, f, settings.chunkSize, settings.chunkOverlap);
    var pending := Pending(|w.chunks| + 1, plan);
    var vectors := EmbedResult(provider, apiKey, Texts(pending), f.backends);
    IndexedTablesAgree(w, w.documents + [NewDocument(w, up, f)], plan, path, vectors);
  }

  /** The tables after the indexing step, from agreeing stores: the new document, its planned
      chunk rows and the mapping rows that went in agree with the index after the append; the
      stored mapping rows are kept, no row breaks a key, and the index only grows. */
  lemma {:induction false} IndexedTablesAgree(w: World, docs: seq<DocumentRow>, plan: seq<(Option<int>, Chunk)>,
                                              path: string, vectors: seq<Vector>)
    requires Agree(w, path)
    requires |docs| == |w.documents| + 1
    ensures var chunks := w.chunks + PlannedRows(|w.documents| + 1, |w.chunks| + 1, 0, plan);
      var mapped := IndexedMappings(w.mappings, w.files, path, Pending(|w.chunks| + 1, plan), vectors);
      && TablesReferential(docs, chunks, mapped)
      && Consistent(mapped, IndexedFiles(w.files, path, vectors), path)
      && w.mappings <= mapped
      && IndexOutcome(w.mappings, w.files, path, Pending(|w.chunks| + 1, plan), vectors) != Some(MappingRejected)
      && NTotalAt(w.files, path) <= NTotalAt(IndexedFiles(w.files, path, vectors), path)
  {
    var docId := |w.documents| + 1;
    var first := |w.chunks| + 1;
    var chunks := w.chunks + PlannedRows(docId, first, 0, plan);
    ChunkRowsReferential(w, docs, docId, plan);
    var pending := Pending(first, plan);
    IndexedConsistent(w.mappings, w.files, path, pending, first, vectors);
    var mapped := IndexedMappings(w.mappings, w.files, path, pending, vectors);
    var added := IndexedRows(w.files, path, pending, vectors);
    assert mapped == w.mappings + added;
    forall i | 0 <= i < |mapped|
      ensures 1 <= mapped[i].chunkId <= |chunks|
    {
      if i >= |w.mappings| {
        assert mapped[i] == added[i - |w.mappings|];
      }
    }
  }

  /** From agreeing stores (every foreign key resolves and every mapped vector id is in the
      persisted index) ingestion leaves agreeing stores, only appends, and no mapping row ever
      breaks a key. */
  lemma {:induction false} IngestPreserves(w: World, up: Upload, provider: string, apiKey: string, path: string, settings: Settings, f: Foreign)
    requires Agree(w, path)
    ensures Agree(IngestSpec(w, up, provider, apiKey, path, settings, f).1, path)
    ensures Grows(w, IngestSpec(w, up, provider, apiKey, path, settings, f).1, path)
    ensures IngestSpec(w, up, provider, apiKey, path, settings, f).0 != Failure(MappingRejected)
  {
    var h := f.sha256(up.content);
    if DocumentByHash(w.documents, h).None? {
      IngestNewDocument(w, up, provider, apiKey, path, settings, f);
      var docs := w.documents + [NewDocument(w, up, f)];
      var extracted := Extracted(f, up.content, DocType(up.pathName));
      if extracted.Some? && settings.chunkOverlap < settings.chunkSize {
        var units := extracted.value;
        var plan := Plan(units, f, settings.chunkSize, settings.chunkOverlap);
        if |plan| > 0 {
          IndexingPreserves(w, up, provider, apiKey, path, settings, f, units);
        } else {
          IngestWithoutChunks(w, up, provider, apiKey, path, settings, f, units);
        }
      }
    }
  }

  /** Every ingestion only appends, from any stores: the rows already stored are kept
      unchanged, the index at the path only grows and no other path is written. */
  lemma {:induction false} IngestGrows(w: World, up: Upload, provider: string, apiKey: string, path: string, settings: Settings, f: Foreign)
    ensures Grows(w, IngestSpec(w, up, provider, apiKey, path, settings, f).1, path)
  {
    var h := f.sha256(up.content);
    if DocumentByHash(w.documents, h).None? {
      IngestNewDocument(w, up, provider, apiKey, path, settings, f);
      var extracted := Extracted(f, up.content, DocType(up.pathName));
      if extracted.Some? && settings.chunkOverlap < settings.chunkSize {
        var units := extracted.value;
        var plan := Plan(units, f, settings.chunkSize, settings.chunkOverlap);
        if |plan| > 0 {
          IngestSpecIndexed(w, up, provider, apiKey, path, settings, f, units);
        } else {
          IngestWithoutChunks(w, up, provider, apiKey, path, settings, f, units);
        }
      }
    }
  }

  /** Appending the planned chunk rows to rows whose ids are as assigned keeps them so. */
  lemma {:induction false} PlannedIdsAssigned(before: seq<ChunkRow>, after: seq<ChunkRow>, plan: seq<(Option<int>, Chunk)>, docId: int)
    requires forall j :: 0 <= j < |before| ==> before[j].id == j + 1
    requires |after| == |before| + |plan| && after[..|before|] == before
    requires forall q :: 0 <= q < |plan| ==>
      after[|before| + q] == ChunkRow(|before| + 1 + q, docId, q, plan[q].1.text, plan[q].0, plan[q].0, plan[q].1.tokenCount)
    ensures forall j :: 0 <= j < |after| ==> after[j].id == j + 1
  {
    forall j | 0 <= j < |after|
      ensures after[j].id == j + 1
    {
      if j < |before| {
        assert after[j] == after[..|before|][j];
      } else {
        var q := j - |before|;
        assert after[|before| + q] ==
          ChunkRow(|before| + 1 + q, docId, q, plan[q].1.text, plan[q].0, plan[q].0, plan[q].1.tokenCount);
      }
    }
  }

  /** Appending a document with the next id and a hash no stored row has keeps ids as
      assigned and `file_hash` unique. */
  lemma {:induction false} NewDocumentKeys(docs: seq<DocumentRow>, chunks: seq<ChunkRow>, mappings: seq<MappingRow>, row: DocumentRow)
    requires TablesValid(docs, chunks, mappings)
    requires row.id == |docs| + 1 && forall i :: 0 <= i < |docs| ==> docs[i].fileHash != row.fileHash
    ensures TablesValid(docs + [row], chunks, mappings)
  {
    var after := docs + [row];
    forall i, j | 0 <= i < j < |after|
      ensures after[i].fileHash != after[j].fileHash
    {
      assert after[i] == docs[i];
    }
  }

  /** The indexing step keeps the keys: the planned chunk rows take the next ids, and the
      mapping rows that go in stop at the first one that would break a key. */
  lemma {:induction false} IndexedTablesKeys(docs: seq<DocumentRow>, chunks: seq<ChunkRow>, mappings: seq<MappingRow>,
                                             files: map<string, FlatIndex>, path: string, docId: int,
                                             plan: seq<(Option<int>, Chunk)>, vectors: seq<Vector>)
    requires TablesValid(docs, chunks, mappings)
    ensures TablesValid(docs, chunks + PlannedRows(docId, |chunks| + 1, 0, plan),
                        IndexedMappings(mappings, files, path, Pending(|chunks| + 1, plan), vectors))
  {
    AppendedChunkRows(chunks, docId, plan);
    PlannedIdsAssigned(chunks, chunks + PlannedRows(docId, |chunks| + 1, 0, plan), plan, docId);
    InsertableKeepsKeys(mappings, IndexedRows(files, path, Pending(|chunks| + 1, plan), vectors));
  }

  /** Ingestion keeps what the schema enforces: document and chunk ids as assigned,
      `file_hash` unique, and `chunk_id` and `faiss_vector_id` unique in the mapping table. */
  lemma {:induction false} IngestKeepsKeys(w: World, up: Upload, provider: string, apiKey: string, path: string, settings: Settings, f: Foreign)
    requires TablesValid(w.documents, w.chunks, w.mappings)
    ensures var o := IngestSpec(w, up, provider, apiKey, path, settings, f).1;
      TablesValid(o.documents, o.chunks, o.mappings)
  {
    var h := f.sha256(up.content);
    if DocumentByHash(w.documents, h).None? {
      var docs := w.documents + [NewDocument(w, up, f)];
      IngestNewDocument(w, up, provider, apiKey, path, settings, f);
      NewDocumentKeys(w.documents, w.chunks, w.mappings, NewDocument(w, up, f));
      var extracted := Extracted(f, up.content, DocType(up.pathName));
      if extracted.Some? && settings.chunkOverlap < settings.chunkSize {
        var units := extracted.value;
        var plan := Plan(units, f, settings.chunkSize, settings.chunkOverlap);
        if |plan| > 0 {
          IngestSpecIndexed(w, up, provider, apiKey, path, settings, f, units);
          var pending := Pending(|w.chunks| + 1, plan);
          var vectors := EmbedResult(provider, apiKey, Texts(pending), f.backends);
          IndexedTablesKeys(docs, w.chunks, w.mappings, w.files, path, |w.documents| + 1, plan, vectors);
        } else {
          IngestWithoutChunks(w, up, provider, apiKey, path, settings, f, units);
        }
      }
    }
  }

  /** Ingesting the same content a second time, whatever the first call did, changes nothing
      and yields the id of the document the first call found or inserted; when the first call
      succeeded, both calls yield the same id. A first call that raised after its document row
      went in therefore makes every retry report that document as already ingested. */
  lemma {:induction false} IngestTwice(w: World, up: Upload, provider: string, apiKey: string, path: string, settings: Settings, f: Foreign)
    requires forall i :: 0 <= i < |w.documents| ==> w.documents[i].id == i + 1
    ensures var o := IngestSpec(w, up, provider, apiKey, path, settings, f);
      var again := IngestSpec(o.1, up, provider, apiKey, path, settings, f);
      && again.1 == o.1
      && again.0.Success?
      && (o.0.Success? ==> again.0 == o.0)
      && (o.0.Failure? ==> again.0 == Success(|w.documents| + 1) && |o.1.documents| == |w.documents| + 1)
  {
    var h := f.sha256(up.content);
    var o := IngestSpec(w, up, provider, apiKey, path, settings, f);
    if DocumentByHash(w.documents, h).None? {
      var docs := w.documents + [NewDocument(w, up, f)];
      assert o.1.documents == docs;
      DocumentByHashAppend(w.documents, NewDocument(w, up, f), h);
      assert IngestSpec(o.1, up, provider, apiKey, path, settings, f) == (Success(|w.documents| + 1), o.1);
    }
  }
}
