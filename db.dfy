/** The three tables of backend/app/db.py that ingestion and retrieval use, as an in-memory
    relational store. Row ids are assigned as SQLite assigns integer primary keys to a table
    whose rows are never deleted: one more than the number of rows already there. */
module Db {
  import opened Common

  /** A JSON value (the `tags` column), kept opaque. */
  datatype Json = Json(text: string)

  /** A row of `documents`; `uploaded_at` (a clock reading) is not modelled. */
  datatype DocumentRow = DocumentRow(
    id: int,
    filename: string,
    fileHash: string,
    docType: string,
    sourceUnit: Option<string>,
    year: Option<int>,
    tags: Option<Json>)

  /** A row of `chunks`. */
  datatype ChunkRow = ChunkRow(
    id: int,
    documentId: int,
    chunkIndex: int,
    text: string,
    pageStart: Option<int>,
    pageEnd: Option<int>,
    tokenCount: int)

  /** A row of `embeddings_index_map`. */
  datatype MappingRow = MappingRow(chunkId: int, vectorId: int)

  /** The error an `INSERT` raises when it would break a UNIQUE or PRIMARY KEY constraint. */
  datatype DbError = UniqueViolation

  // ---------------------------------------------------------------------------
  // Lookups (`SELECT ... WHERE column == value`, first row)

  function DocumentByHash(rows: seq<DocumentRow>, fileHash: string): (r: Option<DocumentRow>)
    ensures r.Some? ==> r.value in rows && r.value.fileHash == fileHash
    ensures r.None? ==> forall i :: 0 <= i < |rows| ==> rows[i].fileHash != fileHash
  {
    if |rows| == 0 then None
    else if rows[0].fileHash == fileHash then Some(rows[0])
    else DocumentByHash(rows[1..], fileHash)
  }

  function DocumentById(rows: seq<DocumentRow>, id: int): (r: Option<DocumentRow>)
    ensures r.Some? ==> r.value in rows && r.value.id == id
    ensures r.None? ==> forall i :: 0 <= i < |rows| ==> rows[i].id != id
  {
    if |rows| == 0 then None
    else if rows[0].id == id then Some(rows[0])
    else DocumentById(rows[1..], id)
  }

  function ChunkById(rows: seq<ChunkRow>, id: int): (r: Option<ChunkRow>)
    ensures r.Some? ==> r.value in rows && r.value.id == id
    ensures r.None? ==> forall i :: 0 <= i < |rows| ==> rows[i].id != id
  {
    if |rows| == 0 then None
    else if rows[0].id == id then Some(rows[0])
    else ChunkById(rows[1..], id)
  }

  function MappingByVector(rows: seq<MappingRow>, vectorId: int): (r: Option<MappingRow>)
    ensures r.Some? ==> r.value in rows && r.value.vectorId == vectorId
    ensures r.None? ==> forall i :: 0 <= i < |rows| ==> rows[i].vectorId != vectorId
  {
    if |rows| == 0 then None
    else if rows[0].vectorId == vectorId then Some(rows[0])
    else MappingByVector(rows[1..], vectorId)
  }

  // ---------------------------------------------------------------------------
  // Constraints

  /** `chunk_id` and `faiss_vector_id` each name at most one row of the mapping table. */
  predicate MappingKeysDistinct(mappings: seq<MappingRow>) {
    && (forall i, j :: 0 <= i < j < |mappings| ==> mappings[i].chunkId != mappings[j].chunkId)
    && (forall i, j :: 0 <= i < j < |mappings| ==> mappings[i].vectorId != mappings[j].vectorId)
  }

  /** What the schema enforces: ids as assigned, `file_hash` UNIQUE, `chunk_id` PRIMARY KEY
      and `faiss_vector_id` UNIQUE. */
  predicate TablesValid(documents: seq<DocumentRow>, chunks: seq<ChunkRow>, mappings: seq<MappingRow>) {
    && (forall i :: 0 <= i < |documents| ==> documents[i].id == i + 1)
    && (forall i, j :: 0 <= i < j < |documents| ==> documents[i].fileHash != documents[j].fileHash)
    && (forall i :: 0 <= i < |chunks| ==> chunks[i].id == i + 1)
    && MappingKeysDistinct(mappings)
  }

  /** The foreign keys `chunks.document_id` and `embeddings_index_map.chunk_id`. SQLite does
      not enforce them unless asked to, so this is what the application keeps, not the schema. */
  predicate TablesReferential(documents: seq<DocumentRow>, chunks: seq<ChunkRow>, mappings: seq<MappingRow>) {
    && (forall i :: 0 <= i < |chunks| ==> 1 <= chunks[i].documentId <= |documents|)
    && (forall i :: 0 <= i < |mappings| ==> 1 <= mappings[i].chunkId <= |chunks|)
  }

  /** Whether inserting the row would break `chunk_id` PRIMARY KEY or `faiss_vector_id` UNIQUE. */
  predicate Conflicts(existing: seq<MappingRow>, row: MappingRow) {
    exists i :: 0 <= i < |existing| && (existing[i].chunkId == row.chunkId || existing[i].vectorId == row.vectorId)
  }

  /** How many rows of a batch go in, one after another, before the first one that conflicts. */
  function Insertable(existing: seq<MappingRow>, rows: seq<MappingRow>): (k: nat)
    ensures k <= |rows|
    decreases |rows|
  {
    if |rows| == 0 then 0
    else if Conflicts(existing, rows[0]) then 0
    else 1 + Insertable(existing + [rows[0]], rows[1..])
  }

  /** A batch whose keys are fresh and pairwise distinct goes in whole. */
  lemma {:induction false} InsertableAll(existing: seq<MappingRow>, rows: seq<MappingRow>)
    requires forall j :: 0 <= j < |rows| ==> !Conflicts(existing, rows[j])
    requires forall i, j :: 0 <= i < j < |rows| ==> rows[i].chunkId != rows[j].chunkId && rows[i].vectorId != rows[j].vectorId
    ensures Insertable(existing, rows) == |rows|
    decreases |rows|
  {
    if |rows| > 0 {
      var e := existing + [rows[0]];
      forall j | 0 <= j < |rows[1..]|
        ensures !Conflicts(e, rows[1..][j])
      {
        assert rows[1..][j] == rows[j + 1];
        assert !Conflicts(existing, rows[j + 1]);
        if Conflicts(e, rows[j + 1]) {
          var i :| 0 <= i < |e| && (e[i].chunkId == rows[j + 1].chunkId || e[i].vectorId == rows[j + 1].vectorId);
          assert false;
        }
      }
      InsertableAll(e, rows[1..]);
    }
  }

  /** Inserting a batch up to its first conflicting row keeps `chunk_id` and
      `faiss_vector_id` unique in the table. */
  lemma {:induction false} InsertableKeepsKeys(existing: seq<MappingRow>, rows: seq<MappingRow>)
    requires MappingKeysDistinct(existing)
    ensures MappingKeysDistinct(existing + rows[..Insertable(existing, rows)])
    decreases |rows|
  {
    if |rows| > 0 && !Conflicts(existing, rows[0]) {
      var e := existing + [rows[0]];
      forall i, j | 0 <= i < j < |e|
        ensures e[i].chunkId != e[j].chunkId && e[i].vectorId != e[j].vectorId
      {
        if j == |existing| {
          assert e[i] == existing[i] && e[j] == rows[0];
        }
      }
      InsertableKeepsKeys(e, rows[1..]);
      var k := Insertable(existing, rows);
      assert k == 1 + Insertable(e, rows[1..]);
      assert rows[..k] == [rows[0]] + rows[1..][..k - 1];
      assert existing + rows[..k] == e + rows[1..][..k - 1];
    } else {
      assert existing + rows[..Insertable(existing, rows)] == existing;
    }
  }

  class Store {
    var documents: seq<DocumentRow>
    var chunks: seq<ChunkRow>
    var mappings: seq<MappingRow>

    ghost predicate Valid()
      reads this
    {
      TablesValid(documents, chunks, mappings)
    }

    ghost predicate Referential()
      reads this
    {
      TablesReferential(documents, chunks, mappings)
    }

    constructor ()
      ensures Valid() && Referential()
      ensures documents == [] && chunks == [] && mappings == []
    {
      documents, chunks, mappings := [], [], [];
    }

    /** `select(documents.c.id).where(documents.c.file_hash == h)`, first row. */
    function FindDocumentByHash(fileHash: string): (r: Option<int>)
      reads this
      requires Valid()
      ensures r.Some? <==> exists i :: 0 <= i < |documents| && documents[i].fileHash == fileHash
      ensures r.Some? ==> 1 <= r.value <= |documents| && documents[r.value - 1].fileHash == fileHash
    {
      match DocumentByHash(documents, fileHash)
      case None => None
      case Some(row) => Some(row.id)
    }

    /** `documents.insert()`: a new row with the next id, unless the hash is already stored. */
    method InsertDocument(filename: string, fileHash: string, docType: string,
                          sourceUnit: Option<string>, year: Option<int>, tags: Option<Json>)
      returns (r: Result<int, DbError>)
      requires Valid()
      modifies this
      ensures Valid()
      ensures chunks == old(chunks) && mappings == old(mappings)
      ensures old(FindDocumentByHash(fileHash)).None? ==>
        && r == Success(|old(documents)| + 1)
        && documents == old(documents) + [DocumentRow(|old(documents)| + 1, filename, fileHash, docType, sourceUnit, year, tags)]
      ensures old(FindDocumentByHash(fileHash)).Some? ==> r == Failure(UniqueViolation) && documents == old(documents)
      ensures old(Referential()) ==> Referential()
    {
      if FindDocumentByHash(fileHash).Some? {
        return Failure(UniqueViolation);
      }
      var id := |documents| + 1;
      documents := documents + [DocumentRow(id, filename, fileHash, docType, sourceUnit, year, tags)];
      return Success(id);
    }

    /** `insert(chunks)`: a new row with the next id. */
    method InsertChunk(documentId: int, chunkIndex: int, text: string,
                       pageStart: Option<int>, pageEnd: Option<int>, tokenCount: int)
      returns (id: int)
      requires Valid()
      modifies this
      ensures Valid()
      ensures id == |old(chunks)| + 1
      ensures chunks == old(chunks) + [ChunkRow(id, documentId, chunkIndex, text, pageStart, pageEnd, tokenCount)]
      ensures documents == old(documents) && mappings == old(mappings)
      ensures old(Referential()) && 1 <= documentId <= |documents| ==> Referential()
    {
      id := |chunks| + 1;
      chunks := chunks + [ChunkRow(id, documentId, chunkIndex, text, pageStart, pageEnd, tokenCount)];
    }

    /** `execute_many(embeddings_index_map.insert(), rows)`: the rows go in one at a time and the
        first that breaks a key constraint raises, leaving the ones before it inserted. */
    method InsertMappings(rows: seq<MappingRow>) returns (r: Result<(), DbError>)
      requires Valid()
      modifies this
      ensures Valid()
      ensures documents == old(documents) && chunks == old(chunks)
      ensures mappings == old(mappings) + rows[..Insertable(old(mappings), rows)]
      ensures r.Success? <==> Insertable(old(mappings), rows) == |rows|
      ensures r.Failure? ==> r.error == UniqueViolation
      ensures old(Referential()) && (forall j :: 0 <= j < |rows| ==> 1 <= rows[j].chunkId <= |chunks|) ==> Referential()
    {
      var i := 0;
      while i < |rows|
        invariant 0 <= i <= Insertable(old(mappings), rows)
        invariant mappings == old(mappings) + rows[..i]
        invariant Insertable(old(mappings), rows) == i + Insertable(mappings, rows[i..])
        invariant documents == old(documents) && chunks == old(chunks)
        invariant Valid()
      {
        if Conflicts(mappings, rows[i]) {
          return Failure(UniqueViolation);
        }
        assert rows[i..][1..] == rows[i + 1..];
        mappings := mappings + [rows[i]];
        assert rows[..i + 1] == rows[..i] + [rows[i]];
        i := i + 1;
      }
      assert rows[..i] == rows;
      return Success(());
    }
  }
}
